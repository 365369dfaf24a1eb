/**
 * The Qt data-check window: a list of text items fed by the serial reader, a
 * stop/resume switch for the one-second update timer, a load label, and the
 * buttons that tag every item and export the list as text or YAML.
 */
module DataCheckTool {
  import opened Wrappers
  import opened PyText

  /** The file `saveDataToFile` writes. */
  const OUTPUT_TXT := "output.txt"
  /** The file `extractToYaml` writes. */
  const OUTPUT_YAML := "output.yaml"
  /** The first line of the YAML export. */
  const YAML_HEADER := "general_data:"
  /** What every item is prefixed with in the YAML export. */
  const YAML_BULLET := "  - "
  /** What `trackDataChanges` appends to every item. */
  const UPDATED := " [Updated]"
  /** What `applyLoadLabel` puts before the label text. */
  const LOAD_LABEL := "Load Label: "

  /** Each item, after `prefix`, on a line of its own ending in a newline. */
  function Lines(items: seq<string>, prefix: string): (text: string)
    ensures items == [] ==> text == ""
  {
    if items == [] then "" else prefix + items[0] + "\n" + Lines(items[1..], prefix)
  }

  /** Writing one more item adds its line at the end. */
  lemma {:induction false} LinesSnoc(items: seq<string>, item: string, prefix: string)
    ensures Lines(items + [item], prefix) == Lines(items, prefix) + prefix + item + "\n"
  {
    if items != [] {
      assert (items + [item])[1..] == items[1..] + [item];
      LinesSnoc(items[1..], item, prefix);
    } else {
      assert ([item])[1..] == [];
    }
  }

  /**
   * When neither the items nor the prefix hold a newline, splitting the text at its
   * newlines gives back each item behind its prefix, then the empty text after the last newline.
   */
  lemma {:induction false} LinesSplit(items: seq<string>, prefix: string)
    requires '\n' !in prefix
    requires forall i :: 0 <= i < |items| ==> '\n' !in items[i]
    ensures |Split(Lines(items, prefix), '\n')| == |items| + 1
    ensures forall i :: 0 <= i < |items| ==> Split(Lines(items, prefix), '\n')[i] == prefix + items[i]
    ensures Split(Lines(items, prefix), '\n')[|items|] == ""
  {
    if items == [] {
      assert Split("", '\n') == [""];
    } else {
      var line := prefix + items[0];
      assert '\n' !in line by {
        assert forall k :: 0 <= k < |line| ==> line[k] == if k < |prefix| then prefix[k] else items[0][k - |prefix|];
      }
      LinesSplit(items[1..], prefix);
      assert Lines(items, prefix) == line + ['\n'] + Lines(items[1..], prefix);
      SplitPrefix(line, Lines(items[1..], prefix), '\n');
    }
  }

  /** What `saveDataToFile` writes: every item followed by a newline. */
  function SavedText(items: seq<string>): string {
    Lines(items, "")
  }

  /** What `extractToYaml` writes: the header line, then each item as a list entry. */
  function YamlText(items: seq<string>): string {
    YAML_HEADER + "\n" + Lines(items, YAML_BULLET)
  }

  /** The saved text read back line by line is the list, followed by the empty last line. */
  lemma SavedReadBack(items: seq<string>)
    requires forall i :: 0 <= i < |items| ==> '\n' !in items[i]
    ensures Split(SavedText(items), '\n') == items + [""]
  {
    LinesSplit(items, "");
    var parts := Split(SavedText(items), '\n');
    forall i | 0 <= i < |items|
      ensures parts[i] == items[i]
    {
      assert "" + items[i] == items[i];
    }
  }

  /**
   * The YAML text read back line by line is the header, then the entries in list order,
   * then the empty last line.
   */
  lemma YamlReadBack(items: seq<string>)
    requires forall i :: 0 <= i < |items| ==> '\n' !in items[i]
    ensures |Split(YamlText(items), '\n')| == |items| + 2
    ensures Split(YamlText(items), '\n')[0] == YAML_HEADER
    ensures forall i :: 0 <= i < |items| ==> Split(YamlText(items), '\n')[i + 1] == YAML_BULLET + items[i]
    ensures Split(YamlText(items), '\n')[|items| + 1] == ""
  {
    LinesSplit(items, YAML_BULLET);
    assert YamlText(items) == YAML_HEADER + ['\n'] + Lines(items, YAML_BULLET);
    SplitPrefix(YAML_HEADER, Lines(items, YAML_BULLET), '\n');
  }

  /** The item `applyLoadLabel` adds for the text of the label box. */
  function LoadLabel(text: string): string {
    if text != "" then LOAD_LABEL + text else LOAD_LABEL + "(Nan)"
  }

  /**
   * The item always starts with "Load Label: " and a non-empty text can be read back
   * after it; an empty box gives the same item as a box holding "(Nan)".
   */
  lemma LoadLabelMeaning(text: string)
    ensures LoadLabel(text)[..|LOAD_LABEL|] == LOAD_LABEL
    ensures text != "" ==> LoadLabel(text)[|LOAD_LABEL|..] == text
    ensures LoadLabel("") == LoadLabel("(Nan)")
    ensures |LoadLabel(text)| > |LOAD_LABEL|
  {
  }

  /** The list after `trackDataChanges`: every item with " [Updated]" appended. */
  function TagAll(items: seq<string>): (tagged: seq<string>)
    ensures |tagged| == |items|
  {
    if items == [] then [] else [items[0] + UPDATED] + TagAll(items[1..])
  }

  /** An item with the tag cut off its end; None when it does not end in the tag. */
  function Untag(item: string): (r: Option<string>)
    ensures r.Some? ==> r.value + UPDATED == item
  {
    var n := |item| - |UPDATED|;
    if n >= 0 && item[n..] == UPDATED then Some(item[..n]) else None
  }

  /** Every item with the tag cut off; None when one of them does not end in it. */
  function UntagAll(items: seq<string>): (r: Option<seq<string>>)
    ensures r.Some? ==> |r.value| == |items|
  {
    if items == [] then Some([])
    else match (Untag(items[0]), UntagAll(items[1..]))
      case (Some(x), Some(rest)) => Some([x] + rest)
      case _ => None
  }

  /** Each item of the tracked list is the item at the same place with the tag appended. */
  lemma {:induction false} TagAllAt(items: seq<string>)
    ensures forall i :: 0 <= i < |items| ==> TagAll(items)[i] == items[i] + UPDATED
  {
    if items != [] {
      TagAllAt(items[1..]);
      forall i | 1 <= i < |items|
        ensures TagAll(items)[i] == items[i] + UPDATED
      {
        assert TagAll(items)[i] == TagAll(items[1..])[i - 1];
      }
    }
  }

  /** The tag is cut off again exactly: an item is the untagged form of its tagged form. */
  lemma UntagTag(item: string)
    ensures Untag(item + UPDATED) == Some(item)
  {
    var t := item + UPDATED;
    assert t[|item|..] == UPDATED && t[..|item|] == item;
  }

  /** Cutting the tag off every item of a tracked list gives the list back. */
  lemma {:induction false} UntagTagAll(items: seq<string>)
    ensures UntagAll(TagAll(items)) == Some(items)
  {
    if items != [] {
      UntagTag(items[0]);
      UntagTagAll(items[1..]);
      assert TagAll(items)[1..] == TagAll(items[1..]);
      assert [items[0]] + items[1..] == items;
    }
  }

  /**
   * Tracking does not settle: tracking a non-empty list again tags its items once more,
   * so the list changes every time.
   */
  lemma TrackAgainGrows(items: seq<string>)
    requires items != []
    ensures TagAll(TagAll(items)) != TagAll(items)
    ensures Untag(TagAll(TagAll(items))[0]) == Some(TagAll(items)[0])
  {
    TagAllAt(items);
    TagAllAt(TagAll(items));
    UntagTag(TagAll(items)[0]);
    assert |TagAll(TagAll(items))[0]| > |TagAll(items)[0]|;
  }

  /**
   * The main window. `items` is `generalDataList`; `timerActive` the state of
   * `dataUpdateTimer`; `readers` the number of read-and-append handlers connected to its
   * timeout; `files` the text of the files the window has written.
   */
  class DataCheckWindow {
    var items: seq<string>
    var isUpdating: bool
    var timerActive: bool
    var readers: nat
    var files: map<string, string>

    /** `isUpdating` tells whether the timer runs. */
    ghost predicate Valid()
      reads this
    {
      isUpdating == timerActive
    }

    /** The window opens with an empty list, not updating, its timer stopped and unconnected. */
    constructor(disk: map<string, string>)
      ensures Valid()
      ensures items == [] && !isUpdating && !timerActive && readers == 0 && files == disk
    {
      items := [];
      isUpdating := false;
      timerActive := false;
      readers := 0;
      files := disk;
    }

    /** `applyLoadLabel` with the text of the label box: exactly one item is added at the end. */
    method ApplyLoadLabel(text: string)
      modifies this`items
      ensures items == old(items) + [LoadLabel(text)]
    {
      if text != "" {
        items := items + [LOAD_LABEL + text];
      } else {
        items := items + [LOAD_LABEL + "(Nan)"];
      }
    }

    /**
     * `startRealTimeData`: when the timer already runs, nothing changes; otherwise one more
     * handler is connected, the timer starts and the window is updating.
     */
    method StartRealTimeData()
      modifies this`timerActive, this`isUpdating, this`readers
      ensures old(timerActive) ==> timerActive == old(timerActive) && isUpdating == old(isUpdating) && readers == old(readers)
      ensures !old(timerActive) ==> timerActive && isUpdating && readers == old(readers) + 1
      ensures old(Valid()) ==> Valid()
    {
      if !timerActive {
        readers := readers + 1;
        timerActive := true;
        isUpdating := true;
      }
    }

    /**
     * `stopOrResumeUpdates`: flips `isUpdating` and stops or restarts the timer to match, so
     * two presses bring back the state before them. No handler is connected here.
     */
    method StopOrResumeUpdates()
      modifies this`timerActive, this`isUpdating
      ensures isUpdating == !old(isUpdating)
      ensures timerActive == isUpdating
    {
      if isUpdating {
        timerActive := false;
        isUpdating := false;
      } else {
        timerActive := true;
        isUpdating := true;
      }
    }

    /**
     * One timeout of the timer: each connected handler reads one text from the serial port
     * (`incoming`, in connection order) and adds it to the list. A stopped timer does nothing.
     */
    method Tick(incoming: seq<string>)
      requires |incoming| == readers
      modifies this`items
      ensures items == old(items) + (if timerActive then incoming else [])
    {
      if timerActive {
        var list := items;
        for i := 0 to |incoming|
          invariant list == items + incoming[..i]
        {
          assert incoming[..i + 1] == incoming[..i] + [incoming[i]];
          list := list + [incoming[i]];
        }
        assert incoming[..|incoming|] == incoming;
        items := list;
      }
    }

    /**
     * `saveDataToFile`: when "output.txt" opens (`canOpen`), it holds every item followed by a
     * newline; otherwise no file changes. `ok` tells which message box is shown.
     */
    method SaveDataToFile(canOpen: bool) returns (ok: bool)
      modifies this`files
      ensures ok == canOpen
      ensures files == if canOpen then old(files)[OUTPUT_TXT := SavedText(items)] else old(files)
    {
      if !canOpen {
        return false;
      }
      var out := "";
      for i := 0 to |items|
        invariant out == Lines(items[..i], "") && files == old(files)
      {
        assert items[..i + 1] == items[..i] + [items[i]];
        LinesSnoc(items[..i], items[i], "");
        out := out + items[i] + "\n";
      }
      assert items[..|items|] == items;
      files := files[OUTPUT_TXT := out];
      return true;
    }

    /**
     * `extractToYaml`: when "output.yaml" opens (`canOpen`), it holds the header line and one
     * list entry per item; otherwise no file changes. `ok` tells which message box is shown.
     */
    method ExtractToYaml(canOpen: bool) returns (ok: bool)
      modifies this`files
      ensures ok == canOpen
      ensures files == if canOpen then old(files)[OUTPUT_YAML := YamlText(items)] else old(files)
    {
      if !canOpen {
        return false;
      }
      var out := YAML_HEADER + "\n";
      for i := 0 to |items|
        invariant out == YAML_HEADER + "\n" + Lines(items[..i], YAML_BULLET) && files == old(files)
      {
        assert items[..i + 1] == items[..i] + [items[i]];
        LinesSnoc(items[..i], items[i], YAML_BULLET);
        out := out + YAML_BULLET + items[i] + "\n";
      }
      assert items[..|items|] == items;
      files := files[OUTPUT_YAML := out];
      return true;
    }

    /** `trackDataChanges`: every item gets " [Updated]" appended; their number and order stay. */
    method TrackDataChanges()
      modifies this`items
      ensures items == TagAll(old(items))
      ensures forall i :: 0 <= i < |items| ==> items[i] == old(items)[i] + UPDATED
    {
      TagAllAt(items);
      var list := items;
      for i := 0 to |list|
        invariant |list| == |items|
        invariant forall k :: 0 <= k < i ==> list[k] == items[k] + UPDATED
        invariant forall k :: i <= k < |list| ==> list[k] == items[k]
      {
        list := list[i := list[i] + UPDATED];
      }
      items := list;
    }
  }
}
