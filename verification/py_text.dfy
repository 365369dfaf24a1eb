/**
 * The small part of Python's `str` behaviour that the modelled code relies on:
 * `strip`, `split(sep)`, `replace(c, '')`, `isdigit`, `int(text)` and `str(int)`,
 * restricted to ASCII text.
 */
module PyText {
  import opened Wrappers

  /** Python's `str.isspace` on ASCII: space, \t \n \v \f \r and the separators 0x1c-0x1f. */
  predicate IsSpace(c: char) {
    c as int == 32 || 9 <= c as int <= 13 || 28 <= c as int <= 31
  }

  predicate IsDigit(c: char) {
    '0' <= c <= '9'
  }

  function DigitValue(c: char): (d: nat)
    requires IsDigit(c)
    ensures d < 10
  {
    c as int - '0' as int
  }

  function DigitChar(d: nat): (c: char)
    requires d < 10
    ensures IsDigit(c) && DigitValue(c) == d
  {
    (d + '0' as int) as char
  }

  /** `s.lstrip()`: drops the leading whitespace and nothing else. */
  function LStrip(s: string): (r: string)
    ensures |r| <= |s| && r == s[|s| - |r|..]
    ensures r == [] || !IsSpace(r[0])
    ensures forall i :: 0 <= i < |s| - |r| ==> IsSpace(s[i])
  {
    if s != [] && IsSpace(s[0]) then LStrip(s[1..]) else s
  }

  /** `s.rstrip()`: drops the trailing whitespace and nothing else. */
  function RStrip(s: string): (r: string)
    ensures |r| <= |s| && r == s[..|r|]
    ensures r == [] || !IsSpace(r[|r| - 1])
    ensures forall i :: |r| <= i < |s| ==> IsSpace(s[i])
  {
    if s != [] && IsSpace(s[|s| - 1]) then RStrip(s[..|s| - 1]) else s
  }

  /** `s.strip()`. */
  function Strip(s: string): (r: string)
    ensures |r| <= |s|
    ensures r == [] || (!IsSpace(r[0]) && !IsSpace(r[|r| - 1]))
  {
    RStrip(LStrip(s))
  }

  /** A text with no whitespace at either end is its own `strip()`. */
  lemma StripNoSpace(s: string)
    requires s == [] || (!IsSpace(s[0]) && !IsSpace(s[|s| - 1]))
    ensures Strip(s) == s
  {
  }

  /** `s.split(sep)` with an explicit separator: never empty, `''.split(sep) == ['']`. */
  function Split(s: string, sep: char): (parts: seq<string>)
    ensures |parts| >= 1
  {
    if s == [] then [""]
    else
      var rest := Split(s[1..], sep);
      if s[0] == sep then [""] + rest else [[s[0]] + rest[0]] + rest[1..]
  }

  /** `sep.join(parts)`. */
  function Join(parts: seq<string>, sep: char): string
  {
    if |parts| == 0 then ""
    else if |parts| == 1 then parts[0]
    else parts[0] + [sep] + Join(parts[1..], sep)
  }

  /** Splitting loses nothing: joining the parts with the separator gives the text back. */
  lemma {:induction false} SplitJoin(s: string, sep: char)
    ensures Join(Split(s, sep), sep) == s
  {
    if s != [] {
      SplitJoin(s[1..], sep);
      var rest := Split(s[1..], sep);
      if s[0] == sep {
        var p := [""] + rest;
        assert p[1..] == rest;
        assert Join(p, sep) == "" + [sep] + Join(rest, sep);
        assert s == [sep] + s[1..];
      } else {
        JoinPrependToFirst([s[0]], rest, sep);
      }
    }
  }

  /** No part of a split contains the separator. */
  lemma {:induction false} SplitPartsSepFree(s: string, sep: char)
    ensures forall i :: 0 <= i < |Split(s, sep)| ==> sep !in Split(s, sep)[i]
  {
    if s != [] {
      SplitPartsSepFree(s[1..], sep);
    }
  }

  lemma JoinPrependToFirst(c: string, q: seq<string>, sep: char)
    requires |q| >= 1
    ensures Join([c + q[0]] + q[1..], sep) == c + Join(q, sep)
  {
    var p := [c + q[0]] + q[1..];
    if |q| > 1 {
      assert p[1..] == q[1..];
    }
  }

  /** Splitting a join of separator-free parts gives the parts back. */
  lemma {:induction false} JoinSplit(parts: seq<string>, sep: char)
    requires |parts| >= 1
    requires forall i :: 0 <= i < |parts| ==> sep !in parts[i]
    ensures Split(Join(parts, sep), sep) == parts
  {
    if |parts| == 1 {
      SplitNoSep(parts[0], sep);
    } else {
      JoinSplit(parts[1..], sep);
      SplitPrefix(parts[0], Join(parts[1..], sep), sep);
      assert [parts[0]] + parts[1..] == parts;
    }
  }

  lemma {:induction false} SplitNoSep(s: string, sep: char)
    requires sep !in s
    ensures Split(s, sep) == [s]
  {
    if s != [] {
      SplitNoSep(s[1..], sep);
      assert [s[0]] + s[1..] == s;
    }
  }

  lemma {:induction false} SplitPrefix(a: string, b: string, sep: char)
    requires sep !in a
    ensures Split(a + [sep] + b, sep) == [a] + Split(b, sep)
  {
    if a == [] {
      assert a + [sep] + b == [sep] + b;
      assert ([sep] + b)[1..] == b;
    } else {
      SplitPrefix(a[1..], b, sep);
      assert (a + [sep] + b)[1..] == a[1..] + [sep] + b;
      assert [a[0]] + a[1..] == a;
    }
  }

  lemma SplitTwo(a: string, b: string, sep: char)
    requires sep !in a && sep !in b
    ensures Split(a + [sep] + b, sep) == [a, b]
  {
    SplitPrefix(a, b, sep);
    SplitNoSep(b, sep);
  }

  lemma SplitThree(a: string, b: string, c: string, sep: char)
    requires sep !in a && sep !in b && sep !in c
    ensures Split(a + [sep] + b + [sep] + c, sep) == [a, b, c]
  {
    assert a + [sep] + b + [sep] + c == a + [sep] + (b + [sep] + c);
    SplitPrefix(a, b + [sep] + c, sep);
    SplitTwo(b, c, sep);
  }

  lemma SplitFour(a: string, b: string, c: string, d: string, sep: char)
    requires sep !in a && sep !in b && sep !in c && sep !in d
    ensures Split(a + [sep] + b + [sep] + c + [sep] + d, sep) == [a, b, c, d]
  {
    assert a + [sep] + b + [sep] + c + [sep] + d == a + [sep] + (b + [sep] + c + [sep] + d);
    SplitPrefix(a, b + [sep] + c + [sep] + d, sep);
    SplitThree(b, c, d, sep);
  }

  /** `s.replace(c, '')`. */
  function RemoveChar(s: string, c: char): (r: string)
    ensures c !in r
    ensures |r| <= |s|
  {
    if s == [] then [] else (if s[0] == c then [] else [s[0]]) + RemoveChar(s[1..], c)
  }

  /** `s.rstrip(c)` for one character. */
  function RStripChar(s: string, c: char): (r: string)
    ensures |r| <= |s| && r == s[..|r|]
    ensures r == [] || r[|r| - 1] != c
    ensures forall i :: |r| <= i < |s| ==> s[i] == c
  {
    if s != [] && s[|s| - 1] == c then RStripChar(s[..|s| - 1], c) else s
  }

  predicate AllDigits(s: string) {
    forall i :: 0 <= i < |s| ==> IsDigit(s[i])
  }

  /** `s.isdigit()` on ASCII: non-empty and every character a decimal digit. */
  predicate IsDigits(s: string) {
    |s| > 0 && forall i :: 0 <= i < |s| ==> IsDigit(s[i])
  }

  /** The body Python's `int()` accepts after the sign: digits, single `_` between digits. */
  predicate IsIntBody(t: string) {
    && |t| > 0
    && IsDigit(t[0]) && IsDigit(t[|t| - 1])
    && (forall i :: 0 <= i < |t| ==> IsDigit(t[i]) || t[i] == '_')
    && (forall i :: 0 <= i < |t| - 1 ==> t[i] == '_' ==> t[i + 1] != '_')
  }

  /** Decimal value of digits, skipping `_`. */
  function DigitsValue(t: string): nat
    requires forall i :: 0 <= i < |t| ==> IsDigit(t[i]) || t[i] == '_'
    decreases |t|
  {
    if t == [] then 0
    else if t[|t| - 1] == '_' then DigitsValue(t[..|t| - 1])
    else 10 * DigitsValue(t[..|t| - 1]) + DigitValue(t[|t| - 1])
  }

  /** Python's `int(s)` in base 10: None where Python raises ValueError. */
  function ParseInt(s: string): (r: Option<int>)
    ensures r.Some? ==> |Strip(s)| > 0
  {
    ParseStripped(Strip(s))
  }

  /** `int()` of a text with no surrounding whitespace: an optional sign, then the digits. */
  function ParseStripped(t: string): (r: Option<int>)
    ensures r.Some? ==> |t| > 0
  {
    if |t| > 0 && (t[0] == '-' || t[0] == '+') then
      if IsIntBody(t[1..]) then Some(if t[0] == '-' then 0 - DigitsValue(t[1..]) else DigitsValue(t[1..]) as int)
      else None
    else if IsIntBody(t) then Some(DigitsValue(t))
    else None
  }

  /** `str(n)` for a natural number. */
  function NatToString(n: nat): (s: string)
    ensures IsDigits(s) && AllDigits(s)
    ensures IsIntBody(s) && DigitsValue(s) == n
  {
    if n < 10 then [DigitChar(n)]
    else
      var p := NatToString(n / 10);
      var s := p + [DigitChar(n % 10)];
      assert s[..|s| - 1] == p;
      s
  }

  /** `str(n)`. */
  function IntToString(n: int): (s: string)
    ensures |s| > 0
  {
    if n < 0 then "-" + NatToString(-n) else NatToString(n)
  }

  /** `int(str(n)) == n`. */
  lemma IntToStringParses(n: int)
    ensures ParseInt(IntToString(n)) == Some(n)
  {
    var s := IntToString(n);
    IntToStringStripped(n);
    IntToStringChars(n);
    var d := NatToString(if n < 0 then -n else n);
    assert s[|s| - 1] == d[|d| - 1];
    StripNoSpace(s);
  }

  /** `str(n)` read back by `int` once stripped: an optional minus, then the digits of `|n|`. */
  lemma IntToStringStripped(n: int)
    ensures ParseStripped(IntToString(n)) == Some(n)
  {
    var s := IntToString(n);
    if n < 0 {
      var d := NatToString(-n);
      assert s == "-" + d && s[1..] == d;
    } else {
      var d := NatToString(n);
      assert IsDigit(d[0]);
    }
  }

  /** `str(list)` for a list of ints: `[1, 2, 3]`. */
  function ListRepr(xs: seq<int>): string
  {
    "[" + Join(ListItems(xs), ',') + "]"
  }

  /** The comma-separated items of `ListRepr`: every item after the first starts with a space. */
  function ListItems(xs: seq<int>): (items: seq<string>)
    ensures |items| == |xs|
  {
    if xs == [] then [] else [IntToString(xs[0])] + SpacedItems(xs[1..])
  }

  function SpacedItems(ys: seq<int>): (items: seq<string>)
    ensures |items| == |ys|
  {
    if ys == [] then [] else [" " + IntToString(ys[0])] + SpacedItems(ys[1..])
  }

  /**
   * `ast.literal_eval(s)` for the one shape the log files hold, a list of integers.
   * None where Python raises (and for literal shapes outside this subset).
   */
  function ParseIntList(s: string): (r: Option<seq<int>>)
  {
    ParseList(Strip(s))
  }

  /** The list literal of an already stripped text: brackets around comma-separated integers. */
  function ParseList(t: string): (r: Option<seq<int>>)
  {
    if |t| < 2 || t[0] != '[' || t[|t| - 1] != ']' then None
    else
      var inner := t[1..|t| - 1];
      if Strip(inner) == [] then Some([])
      else ParseItems(ItemTexts(inner))
  }

  /**
   * The comma-separated items between the brackets. Python allows one trailing comma, so a
   * last item of only whitespace after it is dropped (`[1, 2, ]` is `[1, 2]`).
   */
  function ItemTexts(inner: string): (items: seq<string>)
    ensures |items| >= 1
  {
    var parts := Split(inner, ',');
    if |parts| > 1 && Strip(parts[|parts| - 1]) == [] then parts[..|parts| - 1] else parts
  }

  function ParseItems(items: seq<string>): (r: Option<seq<int>>)
    ensures r.Some? ==> |r.value| == |items|
  {
    if items == [] then Some([])
    else
      match ParseLiteralInt(items[0])
      case None => None
      case Some(x) =>
        match ParseItems(items[1..])
        case None => None
        case Some(rest) => Some([x] + rest)
  }

  /** The digits of an integer text after its optional sign. */
  function Unsigned(t: string): string {
    if |t| > 0 && (t[0] == '-' || t[0] == '+') then t[1..] else t
  }

  /** Digits that start with 0 but are not all zeros, which a Python literal rejects. */
  predicate LeadingZeros(b: string) {
    |b| > 0 && b[0] == '0' && exists i :: 0 <= i < |b| && '1' <= b[i] <= '9'
  }

  /**
   * An integer item of a Python literal: the syntax `int()` accepts, except that a non-zero
   * decimal literal may not start with 0 (`01` is a syntax error, `00` is 0).
   */
  function ParseLiteralInt(s: string): (r: Option<int>)
    ensures r.Some? ==> r == ParseInt(s)
    ensures ParseInt(s).Some? && !LeadingZeros(Unsigned(Strip(s))) ==> r == ParseInt(s)
  {
    var t := Strip(s);
    if LeadingZeros(Unsigned(t)) then None else ParseStripped(t)
  }

  /** `ast.literal_eval(str(xs)) == xs` for a list of integers. */
  lemma ListReprParses(xs: seq<int>)
    ensures ParseIntList(ListRepr(xs)) == Some(xs)
  {
    var inner := Join(ListItems(xs), ',');
    ParseBracketed(inner);
    if xs != [] {
      ListInner(xs);
      ListItemsParse(xs);
    }
  }

  /** The text between the brackets of a non-empty list splits back into its items. */
  lemma ListInner(xs: seq<int>)
    requires xs != []
    ensures ItemTexts(Join(ListItems(xs), ',')) == ListItems(xs)
    ensures Strip(Join(ListItems(xs), ',')) != []
  {
    var items := ListItems(xs);
    ListItemsCommaFree(xs);
    JoinSplit(items, ',');
    JoinFirst(items, ',');
    StripKeepsFirst(Join(items, ','));
    if |xs| > 1 {
      SpacedItemsAt(xs[1..]);
      var last := xs[|xs| - 1];
      assert items[|items| - 1] == " " + IntToString(last);
      SpacedItemStrip(last);
    }
  }

  lemma ListItemsParse(xs: seq<int>)
    requires xs != []
    ensures ParseItems(ListItems(xs)) == Some(xs)
  {
    var items := ListItems(xs);
    SpacedItemsAt(xs[1..]);
    forall i | 0 <= i < |xs|
      ensures ParseLiteralInt(items[i]) == Some(xs[i])
    {
      if i == 0 {
        IntToStringLiteral(xs[0]);
      } else {
        assert items[i] == " " + IntToString(xs[i]);
        SpacedItemLiteral(xs[i]);
      }
    }
    ParseAll(items, xs);
  }

  /** Items each parsing to the matching integer parse, together, to those integers. */
  lemma {:induction false} ParseAll(items: seq<string>, ys: seq<int>)
    requires |items| == |ys| && forall i :: 0 <= i < |items| ==> ParseLiteralInt(items[i]) == Some(ys[i])
    ensures ParseItems(items) == Some(ys)
  {
    if items != [] {
      ParseAll(items[1..], ys[1..]);
      ParseItemsCons(items, ys[0], ys[1..]);
      assert [ys[0]] + ys[1..] == ys;
    }
  }

  lemma {:induction false} SpacedItemsAt(ys: seq<int>)
    ensures forall i :: 0 <= i < |ys| ==> SpacedItems(ys)[i] == " " + IntToString(ys[i])
  {
    if ys != [] {
      SpacedItemsAt(ys[1..]);
      var head := " " + IntToString(ys[0]);
      assert SpacedItems(ys) == [head] + SpacedItems(ys[1..]);
      forall i | 1 <= i < |ys|
        ensures SpacedItems(ys)[i] == " " + IntToString(ys[i])
      {
        assert SpacedItems(ys)[i] == SpacedItems(ys[1..])[i - 1];
        assert ys[1..][i - 1] == ys[i];
      }
    }
  }

  /** Items parse to `x` followed by `rest` when the first parses to `x` and the others to `rest`. */
  lemma ParseItemsCons(items: seq<string>, x: int, rest: seq<int>)
    requires items != [] && ParseLiteralInt(items[0]) == Some(x) && ParseItems(items[1..]) == Some(rest)
    ensures ParseItems(items) == Some([x] + rest)
  {
  }

  /** `literal_eval` of a bracketed text: the empty list, or the list of its comma-separated items. */
  lemma ParseBracketed(inner: string)
    ensures ParseIntList("[" + inner + "]") == if Strip(inner) == [] then Some([]) else ParseItems(ItemTexts(inner))
  {
    var t := "[" + inner + "]";
    assert t[0] == '[' && t[|t| - 1] == ']' && t[1..|t| - 1] == inner;
    StripNoSpace(t);
  }

  /**
   * A single item with a superfluous leading 0, such as `[01]`, is a syntax error for
   * `literal_eval`, even where `int` reads the item.
   */
  lemma LeadingZeroRejected(inner: string)
    requires ',' !in inner && LeadingZeros(Unsigned(Strip(inner)))
    ensures ParseIntList("[" + inner + "]") == None
  {
    ParseBracketed(inner);
    SplitNoSep(inner, ',');
  }

  /**
   * One trailing comma after a last item that is not blank changes nothing: `[1, 2, ]`
   * reads as `[1, 2]`.
   */
  lemma TrailingCommaAllowed(inner: string)
    requires Strip(inner) != [] && Strip(Split(inner, ',')[|Split(inner, ',')| - 1]) != []
    ensures ParseIntList("[" + (inner + ",") + "]") == ParseIntList("[" + inner + "]")
  {
    ParseBracketed(inner);
    ParseBracketed(inner + ",");
    StripEndsSolid(inner, ',');
    ItemTextsComma(inner);
  }

  /** The items before a trailing comma are those without it, when the last is not blank. */
  lemma ItemTextsComma(inner: string)
    requires Strip(Split(inner, ',')[|Split(inner, ',')| - 1]) != []
    ensures ItemTexts(inner + ",") == ItemTexts(inner)
  {
    SplitSnocSep(inner, ',');
    var parts := Split(inner, ',');
    assert (parts + [""])[..|parts|] == parts;
  }

  /** A separator at the end adds an empty last part. */
  lemma {:induction false} SplitSnocSep(s: string, sep: char)
    ensures Split(s + [sep], sep) == Split(s, sep) + [""]
  {
    if s != [] {
      assert (s + [sep])[1..] == s[1..] + [sep];
      SplitSnocSep(s[1..], sep);
    }
  }

  /** A text ending in a character that is not whitespace does not strip to nothing. */
  lemma StripEndsSolid(s: string, c: char)
    requires !IsSpace(c)
    ensures Strip(s + [c]) != []
  {
    var t := s + [c];
    assert t[|t| - 1] == c;
    var l := LStrip(t);
    assert l != [];
    assert l[|l| - 1] == c;
    assert RStrip(l) == l;
  }

  /** A join starts with its first part. */
  lemma JoinFirst(parts: seq<string>, sep: char)
    requires |parts| >= 1
    ensures |Join(parts, sep)| >= |parts[0]| && Join(parts, sep)[..|parts[0]|] == parts[0]
  {
  }

  /** `str(n)` holds digits and possibly a leading minus, never a comma or a space. */
  lemma IntToStringChars(n: int)
    ensures ',' !in IntToString(n) && !IsSpace(IntToString(n)[0])
  {
    var s := IntToString(n);
    var d := NatToString(if n < 0 then -n else n);
    assert forall i :: 0 <= i < |d| ==> IsDigit(d[i]);
    if n < 0 {
      assert s == "-" + d;
      assert forall i :: 1 <= i < |s| ==> s[i] == d[i - 1];
    }
  }

  lemma {:induction false} ListItemsCommaFree(xs: seq<int>)
    ensures forall i :: 0 <= i < |ListItems(xs)| ==> ',' !in ListItems(xs)[i]
    ensures xs != [] ==> !IsSpace(ListItems(xs)[0][0])
  {
    if xs != [] {
      IntToStringChars(xs[0]);
      SpacedCommaFree(xs[1..]);
    }
  }

  lemma {:induction false} SpacedCommaFree(ys: seq<int>)
    ensures forall i :: 0 <= i < |SpacedItems(ys)| ==> ',' !in SpacedItems(ys)[i]
  {
    if ys != [] {
      IntToStringChars(ys[0]);
      SpacedCommaFree(ys[1..]);
    }
  }

  /** A text that does not start with whitespace does not strip to nothing. */
  lemma StripKeepsFirst(s: string)
    requires s != [] && !IsSpace(s[0])
    ensures Strip(s) != []
  {
    assert LStrip(s) == s;
  }

  /** `int(' ' + s) == int(s)`: `int` strips leading whitespace. */
  lemma SpacePrefixParses(s: string)
    ensures ParseInt(" " + s) == ParseInt(s)
  {
    StripSpacePrefix(s);
  }

  lemma SpacedItemParses(y: int)
    ensures ParseInt(" " + IntToString(y)) == Some(y)
  {
    SpacePrefixParses(IntToString(y));
    IntToStringParses(y);
  }

  /** `str(n)` has no surrounding whitespace. */
  lemma IntToStringStrip(n: int)
    ensures Strip(IntToString(n)) == IntToString(n)
  {
    var s := IntToString(n);
    IntToStringChars(n);
    var d := NatToString(if n < 0 then -n else n);
    assert s[|s| - 1] == d[|d| - 1];
    StripNoSpace(s);
  }

  /** `str(n)` after a space, as `str(list)` writes every item after the first, strips to `str(n)`. */
  lemma SpacedItemStrip(n: int)
    ensures Strip(" " + IntToString(n)) == IntToString(n)
  {
    StripSpacePrefix(IntToString(n));
    IntToStringStrip(n);
  }

  /** `str(n)` of a positive number does not start with 0. */
  lemma {:induction false} NatToStringLead(n: nat)
    requires n > 0
    ensures NatToString(n)[0] != '0'
  {
    if n >= 10 {
      NatToStringLead(n / 10);
    }
  }

  /** `str(n)` is a Python integer literal for `n`. */
  lemma IntToStringLiteral(n: int)
    ensures ParseLiteralInt(IntToString(n)) == Some(n)
  {
    IntToStringStrip(n);
    IntToStringStripped(n);
    IntToStringNoLeadingZeros(n);
  }

  /** The digits of `str(n)` never start with a 0 that other digits follow. */
  lemma IntToStringNoLeadingZeros(n: int)
    ensures !LeadingZeros(Unsigned(IntToString(n)))
  {
    var s := IntToString(n);
    var m := if n < 0 then -n else n;
    var d := NatToString(m);
    if n < 0 {
      assert s == "-" + d && s[1..] == d;
    } else {
      assert IsDigit(d[0]);
    }
    assert Unsigned(s) == d;
    if m > 0 {
      NatToStringLead(m);
    } else {
      assert d == [DigitChar(0)];
    }
  }

  /** ` str(n)` is a Python integer literal for `n` too. */
  lemma SpacedItemLiteral(n: int)
    ensures ParseLiteralInt(" " + IntToString(n)) == Some(n)
  {
    SpacedItemStrip(n);
    IntToStringLiteral(n);
  }

  lemma StripSpacePrefix(s: string)
    ensures Strip(" " + s) == Strip(s)
  {
    StripSpaceCons(' ', s);
    assert [' '] + s == " " + s;
  }

  /** Whitespace in front does not survive `strip()`. */
  lemma StripSpaceCons(c: char, s: string)
    requires IsSpace(c)
    ensures Strip([c] + s) == Strip(s)
  {
    assert ([c] + s)[1..] == s;
    assert LStrip([c] + s) == LStrip(s);
  }

  /** A line read from a text file: `strip()` drops its newline and nothing else when it has no other outer whitespace. */
  lemma StripLine(s: string)
    requires s != [] && !IsSpace(s[0]) && !IsSpace(s[|s| - 1])
    ensures Strip(s + "\n") == s
  {
    var t := s + "\n";
    assert LStrip(t) == t;
    assert t[..|t| - 1] == s;
    StripNoSpace(s);
  }

  /** A join ends with its last part. */
  lemma {:induction false} JoinLast(parts: seq<string>, sep: char)
    requires |parts| >= 1
    ensures var j, l := Join(parts, sep), parts[|parts| - 1]; |j| >= |l| && j[|j| - |l|..] == l
  {
    if |parts| > 1 {
      JoinLast(parts[1..], sep);
    }
  }

  /** Removing a character the text does not hold changes nothing. */
  lemma {:induction false} RemoveAbsent(s: string, c: char)
    requires c !in s
    ensures RemoveChar(s, c) == s
  {
    if s != [] {
      RemoveAbsent(s[1..], c);
      assert [s[0]] + s[1..] == s;
    }
  }

  /** The characters `str` of a list of ints can hold. */
  const LIST_CHARS: set<char> := {'[', ']', ',', ' ', '-', '0', '1', '2', '3', '4', '5', '6', '7', '8', '9'}

  /** `str(list)` holds only brackets, commas, spaces, minus signs and digits. */
  lemma ListReprChars(xs: seq<int>)
    ensures forall i :: 0 <= i < |ListRepr(xs)| ==> ListRepr(xs)[i] in LIST_CHARS
  {
    var items := ListItems(xs);
    ListItemsChars(xs);
    JoinWithin(items, ',', LIST_CHARS);
    var j := Join(items, ',');
    var r := ListRepr(xs);
    assert r == "[" + j + "]";
    forall i | 0 <= i < |r|
      ensures r[i] in LIST_CHARS
    {
      if 0 < i < |r| - 1 {
        assert r[i] == j[i - 1];
      }
    }
  }

  /** `str(list)` of ints has no tab and no newline. */
  lemma ListReprSafe(ws: seq<int>)
    ensures '\t' !in ListRepr(ws) && '\n' !in ListRepr(ws)
  {
    var r := ListRepr(ws);
    ListReprChars(ws);
    assert forall i :: 0 <= i < |r| ==> r[i] in LIST_CHARS;
    assert '\t' !in LIST_CHARS && '\n' !in LIST_CHARS;
    forall i | 0 <= i < |r|
      ensures r[i] != '\t' && r[i] != '\n'
    {
      assert r[i] in LIST_CHARS;
    }
  }

  lemma IntToStringWithin(n: int)
    ensures forall i :: 0 <= i < |IntToString(n)| ==> IntToString(n)[i] in LIST_CHARS
  {
    var s := IntToString(n);
    var d := NatToString(if n < 0 then -n else n);
    assert forall i :: 0 <= i < |d| ==> IsDigit(d[i]) && d[i] in LIST_CHARS;
    if n < 0 {
      assert s == "-" + d;
      assert forall i :: 1 <= i < |s| ==> s[i] == d[i - 1];
    }
  }

  lemma {:induction false} ListItemsChars(xs: seq<int>)
    ensures forall k, i :: 0 <= k < |ListItems(xs)| && 0 <= i < |ListItems(xs)[k]| ==> ListItems(xs)[k][i] in LIST_CHARS
  {
    if xs != [] {
      IntToStringWithin(xs[0]);
      SpacedItemsChars(xs[1..]);
    }
  }

  lemma {:induction false} SpacedItemsChars(ys: seq<int>)
    ensures forall k, i :: 0 <= k < |SpacedItems(ys)| && 0 <= i < |SpacedItems(ys)[k]| ==> SpacedItems(ys)[k][i] in LIST_CHARS
  {
    if ys != [] {
      IntToStringWithin(ys[0]);
      SpacedItemsChars(ys[1..]);
      var first := " " + IntToString(ys[0]);
      assert forall i :: 1 <= i < |first| ==> first[i] == IntToString(ys[0])[i - 1];
    }
  }

  /** Joining parts drawn from a set of characters with a separator from it stays within the set. */
  lemma {:induction false} JoinWithin(parts: seq<string>, sep: char, chars: set<char>)
    requires sep in chars
    requires forall k, i :: 0 <= k < |parts| && 0 <= i < |parts[k]| ==> parts[k][i] in chars
    ensures forall i :: 0 <= i < |Join(parts, sep)| ==> Join(parts, sep)[i] in chars
  {
    if |parts| > 1 {
      JoinWithin(parts[1..], sep, chars);
      var rest := Join(parts[1..], sep);
      var j := Join(parts, sep);
      assert j == parts[0] + [sep] + rest;
      forall i | 0 <= i < |j|
        ensures j[i] in chars
      {
        if i < |parts[0]| {
          assert j[i] == parts[0][i];
        } else if i > |parts[0]| {
          assert j[i] == rest[i - |parts[0]| - 1];
        }
      }
    } else if |parts| == 1 {
      assert Join(parts, sep) == parts[0];
    }
  }
}
