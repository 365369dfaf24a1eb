/**
 * The experiment controls of the multi-process algorithm window: the measurement counter,
 * the scenario taken from the combo box text, the generated output file name, and the
 * per-algorithm file handlers that record result frames while an experiment runs.
 */
module AlgorithmMultiProcV2 {
  import opened Wrappers
  import opened PyText
  import opened WallClock

  /** The measurement metadata (`measure_metaData`) handed to each handler when it starts. */
  datatype Meta = Meta(scenario: string, started: bool, count: int, weights: seq<int>)

  /**
   * What the window knows of an `AlgorithmFileHandler`: its output file, whether its
   * auto-save is running, the metadata it was started with, the two flags of
   * `setExperimentInfo`, and how many frames it was given.
   */
  datatype Handler = Handler(file: string, running: bool, meta: Option<Meta>,
                             experimentStarted: bool, measureStarted: bool, frames: nat)

  /** One line of the experiment list: the count, label, combo text and weights of a start. */
  datatype Entry = Entry(count: int, fileLabel: string, scenarioText: string, weights: seq<int>)

  /** A handler just created for `file`, not yet started. */
  function NewHandler(file: string): Handler {
    Handler(file, false, None, false, false, 0)
  }

  /** The text of a scenario in the combo box: `key: name (description)`. */
  function ComboText(key: string, name: string, description: string): string {
    key + ": " + name + " (" + description + ")"
  }

  /**
   * The scenario name of a combo text: after the first `:`, up to the next `(`, stripped.
   * None where the text has no `:`, which raises IndexError.
   */
  function ScenarioName(text: string): Option<string> {
    var parts := Split(text, ':');
    if |parts| < 2 then None else Some(Strip(Split(parts[1], '(')[0]))
  }

  /** `filenameGenerator`: `_<scenario>_<date>.bin`, or `_<label>_<scenario>_<date>.bin` with a label. */
  function FileName(fileLabel: string, scenario: string, date: string): string {
    if fileLabel == "" then "_" + scenario + "_" + date + ".bin"
    else "_" + fileLabel + "_" + scenario + "_" + date + ".bin"
  }

  /** The first part of a split is unaffected by a separator-free prefix, except that it starts with it. */
  lemma {:induction false} SplitFirst(a: string, b: string, sep: char)
    requires sep !in a
    ensures Split(a + b, sep)[0] == a + Split(b, sep)[0]
  {
    if a != [] {
      SplitFirst(a[1..], b, sep);
      assert (a + b)[1..] == a[1..] + b;
      assert (a + b)[0] == a[0] && a[0] in a;
      var rest := Split(a[1..] + b, sep);
      assert Split(a + b, sep) == [[a[0]] + rest[0]] + rest[1..];
      assert [a[0]] + (a[1..] + Split(b, sep)[0]) == a + Split(b, sep)[0];
    } else {
      assert a + b == b;
    }
  }

  /** A stripped, non-empty text padded with one space on each side strips back to itself. */
  lemma StripPadded(s: string)
    requires s != [] && !IsSpace(s[0]) && !IsSpace(s[|s| - 1])
    ensures Strip(" " + s + " ") == s
  {
    StripSpacePrefix(s + " ");
    assert " " + s + " " == " " + (s + " ");
    StripSpaceSuffix(s);
  }

  /** A stripped, non-empty text with one space after it strips back to itself. */
  lemma StripSpaceSuffix(s: string)
    requires s != [] && !IsSpace(s[0]) && !IsSpace(s[|s| - 1])
    ensures Strip(s + " ") == s
  {
    var u := s + " ";
    assert LStrip(u) == u;
    assert u[..|u| - 1] == s;
    assert RStrip(u) == RStrip(s);
    assert LStrip(s) == s;
  }

  /**
   * The combo text of a scenario gives back its name, for a key and a name without `:`
   * and a stripped name without `(`.
   */
  lemma ScenarioNameRecovers(key: string, name: string, description: string)
    requires ':' !in key && ':' !in name && '(' !in name
    requires name != [] && !IsSpace(name[0]) && !IsSpace(name[|name| - 1])
    ensures ScenarioName(ComboText(key, name, description)) == Some(name)
  {
    var rest := " " + name + " (" + description + ")";
    assert ComboText(key, name, description) == key + [':'] + rest;
    SplitPrefix(key, rest, ':');
    var head := " " + name + " (";
    assert rest == head + (description + ")");
    assert ':' !in head;
    SplitFirst(head, description + ")", ':');
    var seg := Split(rest, ':')[0];
    var padded := " " + name + " ";
    assert seg == padded + ['('] + Split(description + ")", ':')[0];
    assert '(' !in padded;
    SplitPrefix(padded, Split(description + ")", ':')[0], '(');
    StripPadded(name);
  }

  /**
   * A generated name is `_`, the parts joined by `_`, and `.bin`: with no `_` inside
   * label, scenario and date, splitting the middle gives the parts back.
   */
  lemma FileNameParts(fileLabel: string, scenario: string, date: string)
    requires '_' !in fileLabel && '_' !in scenario && '_' !in date
    ensures var f := FileName(fileLabel, scenario, date);
      && |f| >= 6 && f[0] == '_' && f[|f| - 4..] == ".bin"
      && Split(f[1..|f| - 4], '_') == if fileLabel == "" then [scenario, date] else [fileLabel, scenario, date]
  {
    var f := FileName(fileLabel, scenario, date);
    if fileLabel == "" {
      assert f[1..|f| - 4] == scenario + ['_'] + date;
      SplitTwo(scenario, date, '_');
    } else {
      assert f[1..|f| - 4] == fileLabel + ['_'] + scenario + ['_'] + date;
      SplitThree(fileLabel, scenario, date, '_');
    }
  }

  /** The `%Y%m%d` stamp of the file name: digits only, ending in the month and the day as two digits each. */
  lemma DateStamp(t: DateTime)
    requires t.Valid()
    ensures var d := CompactDate(t);
      && AllDigits(d) && '_' !in d && |d| >= 5
      && DigitsValue(d[|d| - 4..|d| - 2]) == t.month && DigitsValue(d[|d| - 2..]) == t.day
  {
    var d := CompactDate(t);
    PadValue(t.month, 2);
    PadValue(t.day, 2);
    assert d[|d| - 4..|d| - 2] == Pad(t.month, 2);
    assert d[|d| - 2..] == Pad(t.day, 2);
    assert forall i :: 0 <= i < |d| ==> IsDigit(d[i]);
  }

  /** `setFileHandle(True)`: one new handler per checked algorithm, in checkbox order, keyed by its name. */
  function Registered(hs: map<string, Handler>, algos: seq<string>, checked: set<string>, filename: string): map<string, Handler> {
    if algos == [] then hs
    else
      var before := Registered(hs, algos[..|algos| - 1], checked, filename);
      var a := algos[|algos| - 1];
      if a in checked then before[a := NewHandler(a + filename)] else before
  }

  /**
   * After registration the handlers are the old ones plus one per checked algorithm; a
   * checked algorithm's handler is a fresh one writing to its name followed by the file
   * name, replacing any earlier handler of that name; the others are untouched.
   */
  lemma {:induction false} RegisteredMeaning(hs: map<string, Handler>, algos: seq<string>, checked: set<string>, filename: string)
    ensures forall k :: k in Registered(hs, algos, checked, filename) <==> k in hs || (k in algos && k in checked)
    ensures forall k :: k in Registered(hs, algos, checked, filename) ==>
      Registered(hs, algos, checked, filename)[k] == if k in algos && k in checked then NewHandler(k + filename) else hs[k]
  {
    if algos != [] {
      var init := algos[..|algos| - 1];
      RegisteredMeaning(hs, init, checked, filename);
      assert algos == init + [algos[|algos| - 1]];
      assert forall k :: k in algos <==> k in init || k == algos[|algos| - 1];
    }
  }

  /** What one of the loops over the handlers does to each of them. */
  datatype Step =
    | StartIdle(m: Meta)  // `start_auto_save(meta)` on a handler that is not running
    | MeasureOn           // `setExperimentInfo(isMeasureStarted=True)`
    | Pause               // `setExperimentInfo(isExperimentStarted=False, isMeasureStarted=False)`

  /** A step on one handler; a running handler is not started again. */
  function Apply(step: Step, h: Handler): Handler {
    match step
    case StartIdle(m) => if h.running then h else h.(running := true, meta := Some(m))
    case MeasureOn => h.(measureStarted := true)
    case Pause => h.(experimentStarted := false, measureStarted := false)
  }

  /** Every handler through the step, as the `for fh in self.filehandler.values()` loops do. */
  function Each(hs: map<string, Handler>, step: Step): (r: map<string, Handler>)
    ensures r.Keys == hs.Keys
  {
    map k | k in hs :: Apply(step, hs[k])
  }

  /**
   * `startExperiment` starts exactly the handlers that were idle, with the metadata; a
   * running handler is left as it is; afterwards every handler runs.
   */
  lemma StartIdleMeaning(hs: map<string, Handler>, m: Meta)
    ensures forall k :: k in Each(hs, StartIdle(m)) ==> Each(hs, StartIdle(m))[k].running
    ensures forall k :: k in hs && hs[k].running ==> Each(hs, StartIdle(m))[k] == hs[k]
    ensures forall k :: k in hs && !hs[k].running ==>
      Each(hs, StartIdle(m))[k] == hs[k].(running := true, meta := Some(m))
  {
  }

  /** Telling the handlers the measurement started keeps each running or idle as it was, and changes nothing else. */
  lemma MeasureOnMeaning(hs: map<string, Handler>)
    ensures forall k :: k in Each(hs, MeasureOn) ==>
      Each(hs, MeasureOn)[k].measureStarted && Each(hs, MeasureOn)[k] == hs[k].(measureStarted := true)
  {
  }

  /**
   * The handlers after the start of a measurement: registration for the checked
   * algorithms, then `startExperiment` with the metadata, then, once the operator
   * confirms, the measurement flag.
   */
  function Started(hs: map<string, Handler>, algos: seq<string>, checked: set<string>, filename: string,
                   m: Meta, confirmed: bool): (r: map<string, Handler>)
    ensures r.Keys == Registered(hs, algos, checked, filename).Keys
  {
    var running := Each(Registered(hs, algos, checked, filename), StartIdle(m));
    if confirmed then Each(running, MeasureOn) else running
  }

  /**
   * After the start of a measurement, a checked algorithm's handler is a fresh one for its
   * name followed by the file name, running with the metadata and measuring once confirmed;
   * any other handler is the old one, started with the metadata if it was idle.
   */
  lemma StartedMeaning(hs: map<string, Handler>, algos: seq<string>, checked: set<string>, filename: string,
                       m: Meta, confirmed: bool)
    ensures forall k :: k in Started(hs, algos, checked, filename, m, confirmed) <==> k in hs || (k in algos && k in checked)
    ensures forall k :: k in algos && k in checked ==>
      Started(hs, algos, checked, filename, m, confirmed)[k] ==
        NewHandler(k + filename).(running := true, meta := Some(m), measureStarted := confirmed)
    ensures forall k :: k in hs && !(k in algos && k in checked) ==>
      var h := Apply(StartIdle(m), hs[k]);
      Started(hs, algos, checked, filename, m, confirmed)[k] == if confirmed then h.(measureStarted := true) else h
  {
    RegisteredMeaning(hs, algos, checked, filename);
  }

  /** The loops over the handlers. */
  method EachHandler(hs: map<string, Handler>, step: Step) returns (hs': map<string, Handler>)
    ensures hs' == Each(hs, step)
  {
    hs' := hs;
    var todo := hs.Keys;
    while todo != {}
      invariant todo <= hs.Keys && hs'.Keys == hs.Keys
      invariant forall k :: k in hs ==> hs'[k] == if k in todo then hs[k] else Apply(step, hs[k])
      decreases |todo|
    {
      var k :| k in todo;
      hs' := hs'[k := Apply(step, hs[k])];
      todo := todo - {k};
    }
  }

  /** The registration loop of `setFileHandle(True)` over the checkboxes. */
  method Register(hs: map<string, Handler>, algos: seq<string>, checked: set<string>, filename: string)
    returns (hs': map<string, Handler>)
    ensures hs' == Registered(hs, algos, checked, filename)
  {
    hs' := hs;
    for i := 0 to |algos|
      invariant hs' == Registered(hs, algos[..i], checked, filename)
    {
      assert algos[..i + 1][..i] == algos[..i];
      if algos[i] in checked {
        hs' := hs'[algos[i] := NewHandler(algos[i] + filename)];
      }
    }
    assert algos[..|algos|] == algos;
  }

  /** `AlgorithmMultiProcV2`, the window, with the state its experiment controls keep. */
  class AlgorithmMultiProcV2 {
    /** The algorithms of the checkboxes, in order. */
    const algorithms: seq<string>
    /** `isExperimentStarted`. */
    var isExperimentStarted: bool
    /** `experiment_count`. */
    var experimentCount: int
    /** The text of `experimentCountLine`. */
    var countText: string
    /** `measure_metaData`. */
    var measureMeta: Option<Meta>
    /** `filehandler`, by algorithm name. */
    var handlers: map<string, Handler>
    /** The lines of `experimentList`. */
    var experimentList: seq<Entry>
    /** The text of `generatedFilenameLine`. */
    var generatedFilename: string
    /** The start button's countdown, and whether its timer runs. */
    var countdown: int
    var countdownActive: bool

    /** While an experiment runs, its metadata is set and every handler records. */
    ghost predicate Valid()
      reads this
    {
      isExperimentStarted ==> measureMeta.Some? && forall k :: k in handlers ==> handlers[k].running
    }

    /** A new window: no experiment, count 0, no handlers. */
    constructor(algorithms: seq<string>)
      ensures Valid() && this.algorithms == algorithms
      ensures !isExperimentStarted && experimentCount == 0 && countText == "0" && measureMeta == None
      ensures handlers == map[] && experimentList == [] && generatedFilename == "" && !countdownActive
    {
      this.algorithms := algorithms;
      isExperimentStarted, experimentCount, countText := false, 0, "0";
      measureMeta, handlers, experimentList, generatedFilename := None, map[], [], "";
      countdown, countdownActive := 0, false;
    }

    /**
     * `setFileHandle(isStartButton, meta)`: on start, a handler per checked algorithm writing
     * to its name followed by the file name; on finish, every handler stopped and dropped.
     */
    method SetFileHandle(isStartButton: bool, checked: set<string>, filename: string)
      modifies this`handlers
      ensures handlers == if isStartButton then Registered(old(handlers), algorithms, checked, filename) else map[]
    {
      if isStartButton {
        handlers := Register(handlers, algorithms, checked, filename);
      } else {
        handlers := map[];
      }
    }

    /** `startExperiment(meta)`: the experiment marked started, and each idle handler started with its metadata. */
    method StartExperiment(scenario: string, count: int, weights: seq<int>)
      modifies this`isExperimentStarted, this`measureMeta, this`handlers
      ensures Valid()
      ensures isExperimentStarted && measureMeta == Some(Meta(scenario, true, count, weights))
      ensures handlers == Each(old(handlers), StartIdle(measureMeta.value))
    {
      isExperimentStarted := true;
      var m := Meta(scenario, isExperimentStarted, count, weights);
      measureMeta := Some(m);
      handlers := EachHandler(handlers, StartIdle(m));
      StartIdleMeaning(old(handlers), m);
    }

    /** `stopExperiment`: every handler told the experiment and measurement stopped, and the experiment marked stopped. */
    method StopExperiment()
      modifies this`isExperimentStarted, this`handlers
      ensures Valid() && !isExperimentStarted
      ensures handlers == Each(old(handlers), Pause)
    {
      handlers := EachHandler(handlers, Pause);
      isExperimentStarted := false;
    }

    /**
     * `on_start_measure`: the count goes up by one and is shown; the label is stripped and
     * the scenario name read from the combo text (`raised` when it has no `:`); then the
     * list gets a line, the file name is generated from label, scenario and date, the
     * checked algorithms get handlers, the experiment starts, the handlers are told the
     * measurement started once the operator confirms, and the five-second countdown begins.
     */
    method OnStartMeasure(labelText: string, scenarioText: string, scenarioKey: string, weights: seq<int>,
                          today: DateTime, checked: set<string>, confirmed: bool) returns (raised: bool)
      requires Valid()
      modifies this
      ensures Valid()
      ensures experimentCount == old(experimentCount) + 1 && countText == IntToString(experimentCount)
      ensures raised <==> ScenarioName(scenarioText).None?
      ensures raised ==>
        && isExperimentStarted == old(isExperimentStarted) && measureMeta == old(measureMeta)
        && handlers == old(handlers) && experimentList == old(experimentList)
        && generatedFilename == old(generatedFilename)
        && countdown == old(countdown) && countdownActive == old(countdownActive)
      ensures !raised ==>
        && var fileLabel := Strip(labelText);
        && experimentList == old(experimentList) + [Entry(experimentCount, fileLabel, scenarioText, weights)]
        && generatedFilename == FileName(fileLabel, ScenarioName(scenarioText).value, CompactDate(today))
        && isExperimentStarted && measureMeta == Some(Meta(scenarioKey, true, experimentCount, weights))
        && handlers == Started(old(handlers), algorithms, checked, generatedFilename, measureMeta.value, confirmed)
        && (forall k :: k in handlers <==> k in old(handlers) || (k in algorithms && k in checked))
        && (forall k :: k in handlers ==> handlers[k].running && (confirmed ==> handlers[k].measureStarted))
        && countdown == 5 && countdownActive
    {
      experimentCount := experimentCount + 1;
      countText := IntToString(experimentCount);
      var fileLabel := Strip(labelText);
      var scenario := ScenarioName(scenarioText);
      if scenario.None? {
        return true;
      }
      raised := false;
      BeginMeasure(fileLabel, scenario.value, scenarioText, scenarioKey, weights, CompactDate(today), checked, confirmed);
    }

    /** The rest of `on_start_measure`, once the scenario name is read. */
    method BeginMeasure(fileLabel: string, scenario: string, scenarioText: string, scenarioKey: string, weights: seq<int>,
                        date: string, checked: set<string>, confirmed: bool)
      modifies this
      ensures Valid()
      ensures experimentCount == old(experimentCount) && countText == old(countText)
      ensures experimentList == old(experimentList) + [Entry(experimentCount, fileLabel, scenarioText, weights)]
      ensures generatedFilename == FileName(fileLabel, scenario, date)
      ensures isExperimentStarted && measureMeta == Some(Meta(scenarioKey, true, experimentCount, weights))
      ensures handlers == Started(old(handlers), algorithms, checked, generatedFilename, measureMeta.value, confirmed)
      ensures forall k :: k in handlers <==> k in old(handlers) || (k in algorithms && k in checked)
      ensures forall k :: k in handlers ==> handlers[k].running && (confirmed ==> handlers[k].measureStarted)
      ensures countdown == 5 && countdownActive
    {
      experimentList := experimentList + [Entry(experimentCount, fileLabel, scenarioText, weights)];
      var filename := FileName(fileLabel, scenario, date);
      generatedFilename := filename;
      SetFileHandle(true, checked, filename);
      RegisteredMeaning(old(handlers), algorithms, checked, filename);
      StartExperiment(scenarioKey, experimentCount, weights);
      if confirmed {
        ghost var started := handlers;
        handlers := EachHandler(handlers, MeasureOn);
        MeasureOnMeaning(started);
      }
      countdown, countdownActive := 5, true;
    }

    /** `update_countdown`, once a second: one tick down; at zero the timer stops and so does the experiment. */
    method UpdateCountdown()
      requires Valid()
      modifies this
      ensures Valid() && countdown == old(countdown) - 1
      ensures countdown > 0 ==>
        && isExperimentStarted == old(isExperimentStarted) && handlers == old(handlers)
        && countdownActive == old(countdownActive)
      ensures countdown <= 0 ==> !countdownActive && !isExperimentStarted && handlers == Each(old(handlers), Pause)
      ensures experimentCount == old(experimentCount) && measureMeta == old(measureMeta)
      ensures countText == old(countText) && experimentList == old(experimentList)
      ensures generatedFilename == old(generatedFilename)
    {
      countdown := countdown - 1;
      if countdown <= 0 {
        countdownActive := false;
        StopExperiment();
      }
    }

    /** `on_finish_measure`: the count back to 0, the list emptied, every handler dropped, no metadata, not started. */
    method OnFinishMeasure()
      modifies this
      ensures Valid()
      ensures experimentCount == 0 && countText == "0" && experimentList == []
      ensures handlers == map[] && measureMeta == None && !isExperimentStarted
      ensures generatedFilename == old(generatedFilename)
      ensures countdown == old(countdown) && countdownActive == old(countdownActive)
    {
      experimentCount := 0;
      countText := "0";
      experimentList := [];
      SetFileHandle(false, {}, "");
      measureMeta := None;
      isExperimentStarted := false;
    }

    /**
     * `updateAlgorithmFile(name, data)`: while an experiment runs and some handler exists,
     * the frame goes to the handler of `name` (`raised`, a KeyError, when there is none);
     * otherwise it is dropped.
     */
    method UpdateAlgorithmFile(name: string) returns (raised: bool)
      requires Valid()
      modifies this
      ensures Valid()
      ensures raised <==> isExperimentStarted && handlers != map[] && name !in handlers
      ensures isExperimentStarted && name in old(handlers) ==>
        handlers == old(handlers)[name := old(handlers)[name].(frames := old(handlers)[name].frames + 1)]
      ensures !(isExperimentStarted && name in old(handlers)) ==> handlers == old(handlers)
      ensures isExperimentStarted == old(isExperimentStarted) && measureMeta == old(measureMeta)
      ensures experimentCount == old(experimentCount) && countText == old(countText)
      ensures experimentList == old(experimentList) && generatedFilename == old(generatedFilename)
      ensures countdown == old(countdown) && countdownActive == old(countdownActive)
    {
      raised := false;
      if isExperimentStarted && handlers != map[] {
        if name !in handlers {
          return true;
        }
        var h := handlers[name];
        handlers := handlers[name := h.(frames := h.frames + 1)];
      }
    }
  }
}
