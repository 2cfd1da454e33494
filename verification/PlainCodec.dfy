// A JSON writer and parser that meet every assumption about the texts of a ranking snapshot.
module PlainCodec {
  import opened Common
  import opened JsonlReader
  import opened LabelSnapshot

  // ---------------------------------------------------------------- JSON as numbers

  // What was read, and what is left.
  datatype Parsed<+T> = Parsed(value: T, rest: seq<nat>)

  function TextTokens(text: string): (t: seq<nat>)
    ensures |t| == |text| + 1
  {
    [|text|] + seq(|text|, k requires 0 <= k < |text| => text[k] as nat)
  }

  ghost function SomeKey(fields: map<string, Json>): (key: string)
    requires fields != map[]
    ensures key in fields
  {
    var key :| key in fields;
    key
  }

  ghost function Tokens(j: Json): (t: seq<nat>)
    ensures t != []
    decreases j, 1, 0
  {
    match j
    case Null => [0]
    case Bool(b) => [if b then 1 else 2]
    case Int(n) => if n >= 0 then [3, n] else [4, -n]
    case Float(text) => [5] + TextTokens(text)
    case Str(s) => [6] + TextTokens(s)
    case Arr(items) => [7, |items|] + ItemTokens(items, j)
    case Obj(fields) => [8, |fields|] + FieldTokens(fields, j)
  }

  ghost function ItemTokens(items: seq<Json>, parent: Json): seq<nat>
    requires forall k | 0 <= k < |items| :: items[k] < parent
    decreases parent, 0, |items|
  {
    if items == [] then [] else Tokens(items[0]) + ItemTokens(items[1..], parent)
  }

  ghost function FieldTokens(fields: map<string, Json>, parent: Json): seq<nat>
    requires forall key | key in fields :: fields[key] < parent
    decreases parent, 0, |fields|
  {
    if fields == map[] then []
    else
      var key := SomeKey(fields);
      TextTokens(key) + Tokens(fields[key]) + FieldTokens(fields - {key}, parent)
  }

  function CharOf(n: nat): char {
    if n < 0xD800 || 0xE000 <= n < 0x11_0000 then n as char else ' '
  }

  function ParseText(t: seq<nat>): (r: Option<Parsed<string>>)
    ensures r.Some? ==> |r.value.rest| < |t|
  {
    if t == [] || t[0] > |t| - 1 then None
    else Some(Parsed(seq(t[0], k requires 0 <= k < t[0] => CharOf(t[1 + k])), t[1 + t[0]..]))
  }

  function Negative(n: int): Json {
    Int(-n)
  }

  function ParseJson(t: seq<nat>): (r: Option<Parsed<Json>>)
    ensures r.Some? ==> |r.value.rest| < |t|
    decreases |t|, 0
  {
    if t == [] then None
    else if t[0] == 0 then Some(Parsed(Null, t[1..]))
    else if t[0] <= 2 then Some(Parsed(Bool(t[0] == 1), t[1..]))
    else if |t| == 1 then None
    else if t[0] == 3 then Some(Parsed(Int(t[1]), t[2..]))
    else if t[0] == 4 then Some(Parsed(Negative(t[1]), t[2..]))
    else if t[0] <= 6 then
      match ParseText(t[1..])
      case None => None
      case Some(text) => Some(Parsed(if t[0] == 5 then Float(text.value) else Str(text.value), text.rest))
    else if t[0] == 7 then
      match ParseItems(t[1], t[2..])
      case None => None
      case Some(items) => Some(Parsed(Arr(items.value), items.rest))
    else
      match ParseFields(t[1], t[2..])
      case None => None
      case Some(fields) => Some(Parsed(Obj(fields.value), fields.rest))
  }

  function ParseItems(n: nat, t: seq<nat>): (r: Option<Parsed<seq<Json>>>)
    ensures r.Some? ==> |r.value.rest| <= |t|
    decreases |t|, 1
  {
    if n == 0 then Some(Parsed([], t))
    else
      var first := ParseJson(t);
      if first.None? then None
      else
        match ParseItems(n - 1, first.value.rest)
        case None => None
        case Some(others) => Some(Parsed([first.value.value] + others.value, others.rest))
  }

  function ParseFields(n: nat, t: seq<nat>): (r: Option<Parsed<map<string, Json>>>)
    ensures r.Some? ==> |r.value.rest| <= |t|
    decreases |t|, 1
  {
    if n == 0 then Some(Parsed(map[], t))
    else
      var key := ParseText(t);
      if key.None? then None
      else
        var first := ParseJson(key.value.rest);
        if first.None? then None
        else
          match ParseFields(n - 1, first.value.rest)
          case None => None
          case Some(others) => Some(Parsed(others.value[key.value.value := first.value.value], others.rest))
  }

  lemma ParseTextTokens(text: string, rest: seq<nat>)
    ensures ParseText(TextTokens(text) + rest) == Some(Parsed(text, rest))
  {
    var t := TextTokens(text) + rest;
    forall k | 0 <= k < |text|
      ensures CharOf(t[1 + k]) == text[k]
    {
      assert t[1 + k] == text[k] as nat;
    }
    assert t[1 + |text|..] == rest;
    assert seq(|text|, k requires 0 <= k < |text| => CharOf(t[1 + k])) == text;
  }

  lemma ParseLeaf(j: Json, rest: seq<nat>)
    requires !j.Arr? && !j.Obj?
    ensures ParseJson(Tokens(j) + rest) == Some(Parsed(j, rest))
  {
    var t := Tokens(j) + rest;
    if j.Float? || j.Str? {
      var text := if j.Float? then j.text else j.s;
      assert t[1..] == TextTokens(text) + rest;
      ParseTextTokens(text, rest);
    } else if j.Int? {
      assert t[2..] == rest;
    } else {
      assert t[1..] == rest;
    }
  }

  // Reading what was written gives it back, whatever follows.
  lemma {:induction false} ParseTokens(j: Json, rest: seq<nat>)
    ensures ParseJson(Tokens(j) + rest) == Some(Parsed(j, rest))
    decreases j, 1, 0
  {
    var t := Tokens(j) + rest;
    match j {
      case Arr(items) =>
        assert t[2..] == ItemTokens(items, j) + rest;
        ParseItemTokens(items, j, rest);
      case Obj(fields) =>
        assert t[2..] == FieldTokens(fields, j) + rest;
        ParseFieldTokens(fields, j, rest);
      case _ => ParseLeaf(j, rest);
    }
  }

  lemma {:induction false} ParseItemTokens(items: seq<Json>, parent: Json, rest: seq<nat>)
    requires forall k | 0 <= k < |items| :: items[k] < parent
    ensures ParseItems(|items|, ItemTokens(items, parent) + rest) == Some(Parsed(items, rest))
    decreases parent, 0, |items|
  {
    if items == [] {
      assert ItemTokens(items, parent) + rest == rest;
    } else {
      var others := ItemTokens(items[1..], parent) + rest;
      assert ItemTokens(items, parent) + rest == Tokens(items[0]) + others;
      ParseTokens(items[0], others);
      ParseItemTokens(items[1..], parent, rest);
      assert items == [items[0]] + items[1..];
    }
  }

  lemma OneField(n: nat, key: string, value: Json, others: map<string, Json>, t: seq<nat>, tail: seq<nat>,
                 rest: seq<nat>)
    requires n > 0 && t == TextTokens(key) + (Tokens(value) + tail)
    requires ParseJson(Tokens(value) + tail) == Some(Parsed(value, tail))
    requires ParseFields(n - 1, tail) == Some(Parsed(others, rest))
    ensures ParseFields(n, t) == Some(Parsed(others[key := value], rest))
  {
    ParseTextTokens(key, Tokens(value) + tail);
  }

  lemma WithoutKey(fields: map<string, Json>, key: string)
    requires key in fields
    ensures |fields - {key}| == |fields| - 1 && (fields - {key})[key := fields[key]] == fields
  {
    assert fields.Keys == (fields - {key}).Keys + {key};
  }

  lemma FieldTokensSplit(fields: map<string, Json>, parent: Json, rest: seq<nat>, key: string)
    requires (forall k | k in fields :: fields[k] < parent) && fields != map[] && key == SomeKey(fields)
    ensures FieldTokens(fields, parent) + rest
         == TextTokens(key) + (Tokens(fields[key]) + (FieldTokens(fields - {key}, parent) + rest))
  {
    Reassociate(TextTokens(key), Tokens(fields[key]), FieldTokens(fields - {key}, parent), rest);
  }

  lemma Reassociate(a: seq<nat>, b: seq<nat>, c: seq<nat>, d: seq<nat>)
    ensures a + b + c + d == a + (b + (c + d))
  {
  }

  lemma {:induction false} ParseFieldTokens(fields: map<string, Json>, parent: Json, rest: seq<nat>)
    requires forall key | key in fields :: fields[key] < parent
    ensures ParseFields(|fields|, FieldTokens(fields, parent) + rest) == Some(Parsed(fields, rest))
    decreases parent, 0, |fields|
  {
    if fields == map[] {
      assert FieldTokens(fields, parent) + rest == rest;
    } else {
      var key := SomeKey(fields);
      var tail := FieldTokens(fields - {key}, parent) + rest;
      FieldTokensSplit(fields, parent, rest, key);
      WithoutKey(fields, key);
      ParseTokens(fields[key], tail);
      ParseFieldTokens(fields - {key}, parent, rest);
      OneField(|fields|, key, fields[key], fields - {key}, FieldTokens(fields, parent) + rest, tail, rest);
    }
  }

  // ---------------------------------------------------------------- numbers as bytes

  function Ones(n: nat): Bytes {
    if n == 0 then [] else [1] + Ones(n - 1)
  }

  // Each number as that many ones and a zero.
  function Unary(t: seq<nat>): Bytes {
    if t == [] then [] else Ones(t[0]) + [0] + Unary(t[1..])
  }

  function ReadUnary(b: Bytes, counted: nat): Option<seq<nat>> {
    if b == [] then if counted == 0 then Some([]) else None
    else if b[0] == 1 then ReadUnary(b[1..], counted + 1)
    else if b[0] != 0 then None
    else
      match ReadUnary(b[1..], 0)
      case None => None
      case Some(others) => Some([counted] + others)
  }

  lemma {:induction false} ReadOnes(n: nat, b: Bytes, counted: nat)
    ensures ReadUnary(Ones(n) + b, counted) == ReadUnary(b, counted + n)
  {
    if n == 0 {
      assert Ones(n) + b == b;
    } else {
      assert Ones(n) + b == [1] + (Ones(n - 1) + b);
      ReadOnes(n - 1, b, counted + 1);
    }
  }

  lemma {:induction false} ReadUnaryIs(t: seq<nat>)
    ensures ReadUnary(Unary(t), 0) == Some(t)
  {
    if t != [] {
      var others := [0] + Unary(t[1..]);
      assert Unary(t) == Ones(t[0]) + others;
      ReadOnes(t[0], others, 0);
      assert others[1..] == Unary(t[1..]);
      ReadUnaryIs(t[1..]);
      assert t == [t[0]] + t[1..];
    }
  }

  predicate IsBinary(b: Bytes) {
    forall k | 0 <= k < |b| :: b[k] == 0 || b[k] == 1
  }

  lemma {:induction false} OnesAreBinary(n: nat)
    ensures IsBinary(Ones(n))
  {
    if n > 0 {
      OnesAreBinary(n - 1);
    }
  }

  lemma {:induction false} UnaryIsBinary(t: seq<nat>)
    ensures IsBinary(Unary(t)) && (t != [] ==> Unary(t) != [])
  {
    if t != [] {
      OnesAreBinary(t[0]);
      UnaryIsBinary(t[1..]);
    }
  }

  // Binary bytes as one number.
  function Number(b: Bytes): nat {
    if b == [] then 0 else 3 * Number(b[1..]) + (if b[0] == 0 then 1 else 2)
  }

  lemma {:induction false} NumberTellsApart(a: Bytes, b: Bytes)
    requires IsBinary(a) && IsBinary(b) && Number(a) == Number(b)
    ensures a == b
    decreases |a|
  {
    if a != [] && b != [] {
      NumberTellsApart(a[1..], b[1..]);
      assert a == [a[0]] + a[1..] && b == [b[0]] + b[1..];
    }
  }

  // ---------------------------------------------------------------- the codec

  ghost function Write(j: Json): Bytes {
    Unary(Tokens(j))
  }

  function Read(line: Bytes): Option<Json> {
    if line == [] || line[|line| - 1] != NEWLINE then None
    else
      match ReadUnary(line[..|line| - 1], 0)
      case None => None
      case Some(t) =>
        match ParseJson(t)
        case None => None
        case Some(j) => if j.rest == [] then Some(j.value) else None
  }

  function CategoryText(row: Json): string {
    if row.Obj? && CATEGORY in row.fields && row.fields[CATEGORY].Str? then row.fields[CATEGORY].s else ""
  }

  ghost function Plain(): Codec {
    Codec(text => text, text => text, j => Write(j), line => Read(line), line => |line| <= 1, j => Number(Write(j)),
          n => true, text => true, row => CategoryText(row), context => true, candidate => true, row => true)
  }

  lemma ReadWrite(j: Json)
    ensures Read(Write(j) + [NEWLINE]) == Some(j)
  {
    var line := Write(j) + [NEWLINE];
    assert line[..|line| - 1] == Write(j);
    ReadUnaryIs(Tokens(j));
    assert Tokens(j) + [] == Tokens(j);
    ParseTokens(j, []);
  }

  // Values that can be written differ in their texts and in their hashes, and read back.
  lemma PlainIsSound()
    ensures Faithful(Plain()) && HashPins(Plain())
  {
    var c := Plain();
    forall j | WellFormed(c, j)
      ensures WritesOneLine(c, j)
    {
      ReadWrite(j);
      UnaryIsBinary(Tokens(j));
    }
    forall line
      ensures ReadsWellFormed(c, line)
    {
      if c.parse(line).Some? {
        EveryValueIsWellFormed(c.parse(line).value);
      }
    }
    forall a, b | SameHash(c, a, b)
      ensures a == b
    {
      UnaryIsBinary(Tokens(a));
      UnaryIsBinary(Tokens(b));
      NumberTellsApart(Write(a), Write(b));
      ReadWrite(a);
      ReadWrite(b);
    }
  }

  lemma {:induction false} EveryValueIsWellFormed(j: Json)
    ensures WellFormed(Plain(), j)
  {
    match j {
      case Arr(items) =>
        forall k | 0 <= k < |items|
          ensures WellFormed(Plain(), items[k])
        {
          EveryValueIsWellFormed(items[k]);
        }
      case Obj(fields) =>
        forall key | key in fields
          ensures WellFormed(Plain(), fields[key])
        {
          EveryValueIsWellFormed(fields[key]);
        }
      case _ =>
    }
  }
}
