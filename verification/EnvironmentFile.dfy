// The KEY=value environment file: its line parser and the printer of the fixture generator.
module EnvironmentFile {
  import opened Common

  // ---------------------------------------------------------------- text

  // Where str.splitlines() breaks.
  predicate IsBreak(c: char) {
    || '\n' <= c <= '\r' || '\U{1c}' <= c <= '\U{1e}' || c == '\U{85}' || c == '\U{2028}' || c == '\U{2029}'
  }

  // What str.strip() removes.
  predicate IsSpace(c: char) {
    || IsBreak(c) || c == '\t' || c == '\U{1f}' || c == ' ' || c == '\U{a0}' || c == '\U{1680}'
    || '\U{2000}' <= c <= '\U{200a}' || c == '\U{202f}' || c == '\U{205f}' || c == '\U{3000}'
  }

  function LeftStrip(s: string): (r: string)
    ensures |r| <= |s| && (|r| == |s| ==> r == s)
    ensures r != "" ==> !IsSpace(r[0])
  {
    if s != "" && IsSpace(s[0]) then LeftStrip(s[1..]) else s
  }

  function RightStrip(s: string): (r: string)
    ensures r <= s
    ensures r != "" ==> !IsSpace(r[|r| - 1])
  {
    if s != "" && IsSpace(s[|s| - 1]) then RightStrip(s[..|s| - 1]) else s
  }

  function Strip(s: string): (r: string)
    ensures |r| <= |s| && (|r| == |s| ==> r == s)
  {
    LeftStrip(RightStrip(s))
  }

  function FirstBreak(text: string): (k: nat)
    ensures k <= |text| && forall j | 0 <= j < k :: !IsBreak(text[j])
    ensures k < |text| ==> IsBreak(text[k])
  {
    if text == "" || IsBreak(text[0]) then 0 else 1 + FirstBreak(text[1..])
  }

  // A carriage return and a line feed are one break.
  function BreakLength(text: string, k: nat): (n: nat)
    requires k < |text|
    ensures 1 <= n && k + n <= |text|
  {
    if text[k] == '\r' && k + 1 < |text| && text[k + 1] == '\n' then 2 else 1
  }

  // str.splitlines(): no empty line after a final break.
  function SplitLines(text: string): seq<string>
    decreases |text|
  {
    if text == "" then []
    else
      var k := FirstBreak(text);
      if k == |text| then [text] else [text[..k]] + SplitLines(text[k + BreakLength(text, k)..])
  }

  // ---------------------------------------------------------------- one line

  datatype Line = Ignored | NoEquals | Assignment(key: string, value: string)

  const EXPORT := "export "

  function FirstEquals(s: string): (k: nat)
    ensures k <= |s| && forall j | 0 <= j < k :: s[j] != '='
    ensures k < |s| ==> s[k] == '='
  {
    if s == "" || s[0] == '=' then 0 else 1 + FirstEquals(s[1..])
  }

  function ReadLine(raw: string): Line {
    ReadTrimmed(Strip(raw))
  }

  function ReadTrimmed(stripped: string): Line {
    if stripped == "" || stripped[0] == '#' then Ignored
    else if EXPORT <= stripped then ReadPair(LeftStrip(stripped[|EXPORT|..]))
    else ReadPair(stripped)
  }

  function ReadPair(line: string): Line {
    var k := FirstEquals(line);
    if k == |line| then NoEquals else Assignment(Strip(line[..k]), Strip(line[k + 1..]))
  }

  predicate KeyStart(c: char) {
    'A' <= c <= 'Z'
  }

  predicate KeyRest(c: char) {
    'A' <= c <= 'Z' || '0' <= c <= '9' || c == '_'
  }

  // [A-Z][A-Z0-9_]*
  predicate ValidKey(key: string) {
    key != "" && KeyStart(key[0]) && forall j | 0 < j < |key| :: KeyRest(key[j])
  }

  predicate Wrapped(value: string) {
    |value| >= 2 && value[0] == value[|value| - 1] && (value[0] == '"' || value[0] == '\'')
  }

  function Unquote(value: string): (r: string)
    ensures |r| == |value| ==> !Wrapped(value) && r == value
    ensures !Wrapped(value) ==> r == value
  {
    if Wrapped(value) then value[1..|value| - 1] else value
  }

  // ---------------------------------------------------------------- the file

  datatype Entry = Entry(key: string, value: string)

  datatype LineError =
    | ExpectedAssignment(line: nat)
    | InvalidKey(line: nat, key: string)
    | DuplicateKey(line: nat, key: string)

  // `values` is the dictionary in insertion order.
  datatype Parsed = Parsed(values: seq<Entry>, errors: seq<LineError>)

  predicate HasKey(values: seq<Entry>, key: string) {
    exists k | 0 <= k < |values| :: values[k].key == key
  }

  // One more line, with number `number`.
  function AddLine(p: Parsed, line: Line, number: nat): Parsed {
    match line
    case Ignored => p
    case NoEquals => p.(errors := p.errors + [ExpectedAssignment(number)])
    case Assignment(key, value) =>
      if !ValidKey(key) then p.(errors := p.errors + [InvalidKey(number, key)])
      else if HasKey(p.values, key) then p.(errors := p.errors + [DuplicateKey(number, key)])
      else p.(values := p.values + [Entry(key, Unquote(value))])
  }

  function Collect(lines: seq<Line>): Parsed {
    if lines == [] then Parsed([], []) else AddLine(Collect(lines[..|lines| - 1]), lines[|lines| - 1], |lines|)
  }

  function ReadLines(raw: seq<string>): (lines: seq<Line>)
    ensures |lines| == |raw| && forall k | 0 <= k < |raw| :: lines[k] == ReadLine(raw[k])
  {
    seq(|raw|, k requires 0 <= k < |raw| => ReadLine(raw[k]))
  }

  function Parse(text: string): Parsed {
    Collect(ReadLines(SplitLines(text)))
  }

  method ParseEnv(text: string) returns (p: Parsed)
    ensures p == Parse(text)
  {
    var raw := SplitLines(text);
    ghost var lines := ReadLines(raw);
    var values: seq<Entry> := [];
    var errors: seq<LineError> := [];
    var seen: set<string> := {};
    for n := 0 to |raw|
      invariant Parsed(values, errors) == Collect(lines[..n])
      invariant forall key :: key in seen <==> HasKey(values, key)
    {
      assert lines[..n + 1][..n] == lines[..n];
      match ReadLine(raw[n])
      case Ignored =>
      case NoEquals => errors := errors + [ExpectedAssignment(n + 1)];
      case Assignment(key, value) =>
        if !ValidKey(key) {
          errors := errors + [InvalidKey(n + 1, key)];
        } else if key in seen {
          errors := errors + [DuplicateKey(n + 1, key)];
        } else {
          HasKeyGrows(values, Entry(key, Unquote(value)));
          values := values + [Entry(key, Unquote(value))];
          seen := seen + {key};
        }
    }
    assert lines[..|raw|] == lines;
    p := Parsed(values, errors);
  }

  lemma HasKeyGrows(values: seq<Entry>, e: Entry)
    ensures forall key :: HasKey(values + [e], key) <==> HasKey(values, key) || key == e.key
  {
    forall key
      ensures HasKey(values + [e], key) <==> HasKey(values, key) || key == e.key
    {
      if HasKey(values, key) {
        var k :| 0 <= k < |values| && values[k].key == key;
        assert (values + [e])[k].key == key;
      }
      assert (values + [e])[|values|] == e;
    }
  }

  // ---------------------------------------------------------------- every line counts once

  function Counted(lines: seq<Line>): nat {
    if lines == [] then 0 else Counted(lines[..|lines| - 1]) + if lines[|lines| - 1].Ignored? then 0 else 1
  }

  // Lines that are neither blank nor comments are entries or errors, each exactly one.
  lemma {:induction false} LinesAreEntriesOrErrors(lines: seq<Line>)
    ensures Counted(lines) == |Collect(lines).values| + |Collect(lines).errors|
  {
    if lines != [] {
      LinesAreEntriesOrErrors(lines[..|lines| - 1]);
    }
  }

  // A line that offers a value for a key.
  predicate Offers(line: Line, key: string) {
    line.Assignment? && line.key == key && ValidKey(key)
  }

  predicate Offered(lines: seq<Line>, key: string) {
    exists n | 0 <= n < |lines| :: Offers(lines[n], key)
  }

  lemma OfferedGrows(lines: seq<Line>, line: Line, key: string)
    ensures Offered(lines + [line], key) <==> Offered(lines, key) || Offers(line, key)
  {
    if Offered(lines, key) {
      var n :| 0 <= n < |lines| && Offers(lines[n], key);
      assert Offers((lines + [line])[n], key);
    }
    assert (lines + [line])[|lines|] == line;
  }

  // The dictionary has exactly the keys that some line offers a value for.
  lemma {:induction false} KeysAreOffered(lines: seq<Line>, key: string)
    ensures HasKey(Collect(lines).values, key) <==> Offered(lines, key)
  {
    if lines != [] {
      var front, last := lines[..|lines| - 1], lines[|lines| - 1];
      KeysAreOffered(front, key);
      OfferedGrows(front, last, key);
      assert lines == front + [last];
      if last.Assignment? {
        HasKeyGrows(Collect(front).values, Entry(last.key, Unquote(last.value)));
      }
    }
  }

  // Its value for a key is that of the first line that offers one; the later ones are errors.
  lemma {:induction false} FirstOfferWins(lines: seq<Line>, n: nat, key: string)
    requires n < |lines| && Offers(lines[n], key) && !Offered(lines[..n], key)
    ensures Entry(key, Unquote(lines[n].value)) in Collect(lines).values
    ensures forall e | e in Collect(lines).values && e.key == key :: e.value == Unquote(lines[n].value)
    decreases |lines|
  {
    var front, last := lines[..|lines| - 1], lines[|lines| - 1];
    KeysAreOffered(front, key);
    if n < |front| {
      assert front[..n] == lines[..n] && front[n] == lines[n];
      FirstOfferWins(front, n, key);
      assert HasKey(Collect(front).values, key);
    } else {
      assert front == lines[..n];
      NoEntry(Collect(front).values, key);
    }
  }

  lemma NoEntry(values: seq<Entry>, key: string)
    requires !HasKey(values, key)
    ensures forall e | e in values :: e.key != key
  {
  }

  // ---------------------------------------------------------------- printing

  function PrintLine(e: Entry): string {
    e.key + "=" + e.value
  }

  function JoinLines(values: seq<Entry>): string {
    if values == [] then ""
    else if |values| == 1 then PrintLine(values[0])
    else PrintLine(values[0]) + "\n" + JoinLines(values[1..])
  }

  function Print(values: seq<Entry>): string {
    JoinLines(values) + "\n"
  }

  predicate SingleLine(s: string) {
    forall k | 0 <= k < |s| :: !IsBreak(s[k])
  }

  predicate DistinctKeys(values: seq<Entry>) {
    forall j, k | 0 <= j < k < |values| :: values[j].key != values[k].key
  }

  // Valid distinct keys, and values that are single-line.
  predicate WellFormed(values: seq<Entry>) {
    DistinctKeys(values) && forall k | 0 <= k < |values| :: ValidKey(values[k].key) && SingleLine(values[k].value)
  }

  // Values that survive trimming and the removal of quotes.
  predicate Plain(value: string) {
    Strip(value) == value && !Wrapped(value)
  }

  predicate Printable(values: seq<Entry>) {
    WellFormed(values) && forall k | 0 <= k < |values| :: Plain(values[k].value)
  }

  lemma {:induction false} FirstBreakIs(text: string, k: nat)
    requires k < |text| && SingleLine(text[..k]) && IsBreak(text[k])
    ensures FirstBreak(text) == k
  {
    if k > 0 {
      assert text[..k][0] == text[0];
      assert text[1..][..k - 1] == text[..k][1..];
      FirstBreakIs(text[1..], k - 1);
    }
  }

  lemma SplitOne(line: string, rest: string)
    requires SingleLine(line)
    ensures SplitLines(line + "\n" + rest) == [line] + SplitLines(rest)
  {
    var text := line + "\n" + rest;
    assert text[..|line|] == line && text[|line|] == '\n' && text[|line| + 1..] == rest;
    FirstBreakIs(text, |line|);
  }

  function PrintedLines(values: seq<Entry>): (lines: seq<string>)
    ensures |lines| == |values| && forall k | 0 <= k < |values| :: lines[k] == PrintLine(values[k])
  {
    seq(|values|, k requires 0 <= k < |values| => PrintLine(values[k]))
  }

  lemma PrintCons(values: seq<Entry>)
    requires |values| > 1
    ensures Print(values) == PrintLine(values[0]) + "\n" + Print(values[1..])
    ensures PrintedLines(values) == [PrintLine(values[0])] + PrintedLines(values[1..])
  {
  }

  lemma {:induction false} SplitPrinted(values: seq<Entry>)
    requires values != [] && forall k | 0 <= k < |values| :: SingleLine(PrintLine(values[k]))
    ensures SplitLines(Print(values)) == PrintedLines(values)
  {
    if |values| == 1 {
      SplitOne(PrintLine(values[0]), "");
      assert Print(values) == PrintLine(values[0]) + "\n" + "";
    } else {
      SplitPrinted(values[1..]);
      SplitOne(PrintLine(values[0]), Print(values[1..]));
      PrintCons(values);
    }
  }

  // ---------------------------------------------------------------- reading a printed line

  lemma KeyIsPlain(key: string, k: nat)
    requires ValidKey(key) && k < |key|
    ensures !IsSpace(key[k]) && key[k] != '=' && key[k] != '#'
  {
  }

  lemma {:induction false} RightStripBehind(front: string, back: string)
    requires front != "" && !IsSpace(front[|front| - 1])
    ensures RightStrip(front + back) == front + RightStrip(back)
    decreases |back|
  {
    var whole := front + back;
    if back == "" {
      assert whole == front;
    } else if IsSpace(back[|back| - 1]) {
      assert whole[..|whole| - 1] == front + back[..|back| - 1];
      RightStripBehind(front, back[..|back| - 1]);
    }
  }

  lemma {:induction false} FirstEqualsIs(s: string, k: nat)
    requires k < |s| && s[k] == '=' && forall j | 0 <= j < k :: s[j] != '='
    ensures FirstEquals(s) == k
  {
    if k > 0 {
      FirstEqualsIs(s[1..], k - 1);
    }
  }

  lemma RightStripTwice(s: string)
    ensures RightStrip(RightStrip(s)) == RightStrip(s)
  {
  }

  lemma StripKey(key: string)
    requires ValidKey(key)
    ensures Strip(key) == key
  {
    KeyIsPlain(key, 0);
    KeyIsPlain(key, |key| - 1);
  }

  // Trimming touches only the end of the value.
  lemma StripPrinted(front: string, value: string)
    requires front != "" && !IsSpace(front[0]) && !IsSpace(front[|front| - 1])
    ensures Strip(front + value) == front + RightStrip(value)
  {
    RightStripBehind(front, value);
  }

  lemma ReadPairOf(key: string, value: string)
    requires ValidKey(key)
    ensures ReadPair(key + "=" + value) == Assignment(key, Strip(value))
  {
    var line := key + "=" + value;
    forall j | 0 <= j < |key|
      ensures line[j] != '='
    {
      KeyIsPlain(key, j);
    }
    FirstEqualsIs(line, |key|);
    assert line[..|key|] == key && line[|key| + 1..] == value;
    StripKey(key);
  }

  lemma NotExport(key: string, rest: string)
    requires ValidKey(key)
    ensures !(EXPORT <= key + rest) && (key + rest)[0] != '#'
  {
    assert (key + rest)[0] == key[0] && EXPORT[0] == 'e';
  }

  // A printed line reads back as its key and its trimmed value.
  lemma ReadPrinted(e: Entry)
    requires ValidKey(e.key)
    ensures ReadLine(PrintLine(e)) == Assignment(e.key, Strip(e.value))
  {
    var front, value := e.key + "=", RightStrip(e.value);
    KeyIsPlain(e.key, 0);
    StripPrinted(front, e.value);
    assert front + value == e.key + ("=" + value);
    NotExport(e.key, "=" + value);
    ReadPairOf(e.key, value);
    RightStripTwice(e.value);
  }

  // An `export ` in front of it changes nothing.
  lemma ReadExported(e: Entry)
    requires ValidKey(e.key)
    ensures ReadLine(EXPORT + PrintLine(e)) == Assignment(e.key, Strip(e.value))
  {
    var pair, front, value := e.key + "=", EXPORT + (e.key + "="), RightStrip(e.value);
    KeyIsPlain(e.key, 0);
    assert front[0] == 'e' && front[|front| - 1] == '=';
    assert EXPORT + PrintLine(e) == front + e.value;
    StripPrinted(front, e.value);
    var stripped := front + value;
    assert EXPORT <= stripped && stripped[|EXPORT|..] == pair + value;
    assert (pair + value)[0] == e.key[0];
    ReadPairOf(e.key, value);
    RightStripTwice(e.value);
  }

  lemma QuotedIs(value: string, quote: char, quoted: string)
    requires (quote == '"' || quote == '\'') && quoted == [quote] + value + [quote]
    ensures Unquote(quoted) == value && Strip(quoted) == quoted
  {
    assert quoted[0] == quote && quoted[|quoted| - 1] == quote;
    assert quoted[1..|quoted| - 1] == value;
  }

  // In matching quotes every value survives, spaces at its ends included.
  lemma ReadQuoted(key: string, value: string, quote: char, quoted: string)
    requires ValidKey(key) && (quote == '"' || quote == '\'') && quoted == [quote] + value + [quote]
    ensures ReadLine(PrintLine(Entry(key, quoted))) == Assignment(key, quoted) && Unquote(quoted) == value
  {
    ReadPrinted(Entry(key, quoted));
    QuotedIs(value, quote, quoted);
  }

  // ---------------------------------------------------------------- the round trip

  // Lines that offer distinct keys become entries, one by one and without errors.
  lemma {:induction false} CollectDistinct(lines: seq<Line>, values: seq<Entry>)
    requires |lines| == |values| && DistinctKeys(values)
    requires forall k | 0 <= k < |lines| :: Offers(lines[k], values[k].key) &&
                                            Unquote(lines[k].value) == values[k].value
    ensures Collect(lines) == Parsed(values, [])
  {
    if lines != [] {
      var front, last := lines[..|lines| - 1], |lines| - 1;
      CollectDistinct(front, values[..last]);
      assert values == values[..last] + [values[last]];
      assert !HasKey(values[..last], values[last].key);
    }
  }

  // The same entries with their values trimmed and unquoted.
  function Normalized(values: seq<Entry>): (r: seq<Entry>)
    ensures |r| == |values| && forall k | 0 <= k < |values| ::
              r[k] == Entry(values[k].key, Unquote(Strip(values[k].value)))
  {
    seq(|values|, k requires 0 <= k < |values| => Entry(values[k].key, Unquote(Strip(values[k].value))))
  }

  lemma PrintedIsSingleLine(e: Entry)
    requires ValidKey(e.key) && SingleLine(e.value)
    ensures SingleLine(PrintLine(e))
  {
    forall k | 0 <= k < |PrintLine(e)|
      ensures !IsBreak(PrintLine(e)[k])
    {
      if k < |e.key| {
        KeyIsPlain(e.key, k);
      }
    }
  }

  lemma ParsePrinted(values: seq<Entry>)
    requires WellFormed(values)
    ensures Parse(Print(values)) == Parsed(Normalized(values), [])
  {
    if values == [] {
      EmptyFile();
    } else {
      forall k | 0 <= k < |values|
        ensures SingleLine(PrintLine(values[k])) &&
                ReadLine(PrintLine(values[k])) == Assignment(values[k].key, Strip(values[k].value))
      {
        PrintedIsSingleLine(values[k]);
        ReadPrinted(values[k]);
      }
      SplitPrinted(values);
      CollectDistinct(ReadLines(PrintedLines(values)), Normalized(values));
    }
  }

  lemma EmptyFile()
    ensures Parse(Print([])) == Parsed([], [])
  {
    SplitOne("", "");
    assert Print([]) == "" + "\n" + "";
    var lines := ReadLines([""]);
    assert SplitLines(Print([])) == [""] && lines[0] == Ignored;
    assert lines[..0] == [];
  }

  // What the parser can produce: valid distinct keys with single-line values.
  lemma {:induction false} CollectedAreWellFormed(lines: seq<Line>)
    requires forall k | 0 <= k < |lines| && lines[k].Assignment? :: SingleLine(lines[k].value)
    ensures WellFormed(Collect(lines).values)
  {
    if lines != [] {
      var front, last := lines[..|lines| - 1], lines[|lines| - 1];
      CollectedAreWellFormed(front);
      assert last == lines[|lines| - 1];
    }
  }

  lemma {:induction false} SplitLinesAreSingle(text: string)
    ensures forall k | 0 <= k < |SplitLines(text)| :: SingleLine(SplitLines(text)[k])
    decreases |text|
  {
    if text != "" {
      var k := FirstBreak(text);
      if k < |text| {
        SplitLinesAreSingle(text[k + BreakLength(text, k)..]);
      }
    }
  }

  lemma {:induction false} LeftStripIsPart(s: string)
    requires SingleLine(s)
    ensures SingleLine(LeftStrip(s))
  {
    if s != "" && IsSpace(s[0]) {
      LeftStripIsPart(s[1..]);
    }
  }

  lemma StripIsPart(s: string)
    requires SingleLine(s)
    ensures SingleLine(Strip(s))
  {
    LeftStripIsPart(RightStrip(s));
  }

  lemma ReadLineIsSingle(raw: string)
    requires SingleLine(raw)
    ensures ReadLine(raw).Assignment? ==> SingleLine(ReadLine(raw).value)
  {
    StripIsPart(raw);
    var stripped := Strip(raw);
    if EXPORT <= stripped {
      LeftStripIsPart(stripped[|EXPORT|..]);
      ReadPairIsSingle(LeftStrip(stripped[|EXPORT|..]));
    }
    ReadPairIsSingle(stripped);
  }

  lemma ReadPairIsSingle(line: string)
    requires SingleLine(line)
    ensures ReadPair(line).Assignment? ==> SingleLine(ReadPair(line).value)
  {
    var k := FirstEquals(line);
    if k < |line| {
      StripIsPart(line[k + 1..]);
    }
  }

  lemma ParsedAreWellFormed(text: string)
    ensures WellFormed(Parse(text).values)
  {
    var raw := SplitLines(text);
    SplitLinesAreSingle(text);
    forall k | 0 <= k < |raw|
      ensures ReadLine(raw[k]).Assignment? ==> SingleLine(ReadLine(raw[k]).value)
    {
      ReadLineIsSingle(raw[k]);
    }
    CollectedAreWellFormed(ReadLines(raw));
  }

  // Printing and parsing gives the same dictionary back, without errors, exactly when every key
  // fits the key pattern, no key repeats, and every value is single-line, trimmed and not wrapped
  // in matching quotes.
  lemma RoundTrip(values: seq<Entry>)
    ensures Parse(Print(values)) == Parsed(values, []) <==> Printable(values)
  {
    if WellFormed(values) {
      ParsePrinted(values);
      if Normalized(values) == values {
        forall k | 0 <= k < |values|
          ensures Plain(values[k].value)
        {
          assert Normalized(values)[k] == values[k];
        }
      }
      if Printable(values) {
        forall k | 0 <= k < |values|
          ensures Normalized(values)[k] == values[k]
        {
          assert Plain(values[k].value);
        }
      }
    } else {
      ParsedAreWellFormed(Print(values));
    }
  }
}
