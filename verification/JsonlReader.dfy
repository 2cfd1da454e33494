// The bounded-memory file reader of the source release: it hashes, counts, optionally keeps
// and optionally validates a JSONL file chunk by chunk.
module JsonlReader {
  import opened Common

  const NEWLINE: bv8 := 10
  const MAX_LINE_BYTES: nat := 8 * 1024 * 1024

  // ---------------------------------------------------------------- the one-shot view

  function FirstNewline(b: Bytes): (k: nat)
    ensures k <= |b| && NEWLINE !in b[..k]
    ensures k < |b| ==> b[k] == NEWLINE
  {
    if b == [] || b[0] == NEWLINE then 0
    else
      var k := 1 + FirstNewline(b[1..]);
      assert b[..k] == [b[0]] + b[1..][..k - 1];
      k
  }

  // The newline-terminated lines, without their newlines.
  function Lines(b: Bytes): seq<Bytes>
    decreases |b|
  {
    var k := FirstNewline(b);
    if k == |b| then [] else [b[..k]] + Lines(b[k + 1..])
  }

  // What follows the last newline.
  function Tail(b: Bytes): Bytes
    decreases |b|
  {
    var k := FirstNewline(b);
    if k == |b| then b else Tail(b[k + 1..])
  }

  function Join(lines: seq<Bytes>): Bytes {
    if lines == [] then [] else lines[0] + [NEWLINE] + Join(lines[1..])
  }

  function Flatten(chunks: seq<Bytes>): Bytes {
    if chunks == [] then [] else chunks[0] + Flatten(chunks[1..])
  }

  predicate Unbroken(lines: seq<Bytes>, tail: Bytes) {
    NEWLINE !in tail && forall k | 0 <= k < |lines| :: NEWLINE !in lines[k]
  }

  lemma {:induction false} FirstNewlineIs(b: Bytes, k: nat)
    requires k <= |b| && NEWLINE !in b[..k]
    requires k < |b| ==> b[k] == NEWLINE
    ensures FirstNewline(b) == k
  {
    if k > 0 {
      assert b[0] == b[..k][0];
      assert b[1..][..k - 1] == b[..k][1..];
      FirstNewlineIs(b[1..], k - 1);
    }
  }

  lemma LinesOfFirst(line: Bytes, rest: Bytes)
    requires NEWLINE !in line
    ensures Lines(line + [NEWLINE] + rest) == [line] + Lines(rest) && Tail(line + [NEWLINE] + rest) == Tail(rest)
  {
    var whole := line + [NEWLINE] + rest;
    assert whole[..|line|] == line && whole[|line| + 1..] == rest;
    FirstNewlineIs(whole, |line|);
  }

  lemma LinesOfTail(tail: Bytes)
    requires NEWLINE !in tail
    ensures Lines(tail) == [] && Tail(tail) == tail
  {
    assert tail[..|tail|] == tail;
    FirstNewlineIs(tail, |tail|);
  }

  // Splitting is the only way to read a text as lines: it is the inverse of joining.
  lemma {:induction false} LinesOfJoin(lines: seq<Bytes>, tail: Bytes)
    requires Unbroken(lines, tail)
    ensures Lines(Join(lines) + tail) == lines && Tail(Join(lines) + tail) == tail
  {
    if lines == [] {
      assert Join(lines) + tail == tail;
      LinesOfTail(tail);
    } else {
      var rest := Join(lines[1..]) + tail;
      assert Join(lines) + tail == lines[0] + [NEWLINE] + rest;
      LinesOfFirst(lines[0], rest);
      LinesOfJoin(lines[1..], tail);
      assert lines == [lines[0]] + lines[1..];
    }
  }

  lemma JoinCons(line: Bytes, lines: seq<Bytes>, tail: Bytes)
    ensures Join([line] + lines) + tail == line + [NEWLINE] + (Join(lines) + tail)
  {
    assert ([line] + lines)[1..] == lines;
  }

  lemma {:induction false} JoinOfLines(b: Bytes)
    ensures Join(Lines(b)) + Tail(b) == b
    ensures Unbroken(Lines(b), Tail(b))
    decreases |b|
  {
    var k := FirstNewline(b);
    if k == |b| {
      assert b[..k] == b;
    } else {
      var line, rest := b[..k], b[k + 1..];
      assert b == line + [NEWLINE] + rest;
      LinesOfFirst(line, rest);
      JoinOfLines(rest);
      JoinCons(line, Lines(rest), Tail(rest));
    }
  }

  lemma {:induction false} JoinAppend(xs: seq<Bytes>, ys: seq<Bytes>)
    ensures Join(xs + ys) == Join(xs) + Join(ys)
  {
    if xs == [] {
      assert xs + ys == ys;
    } else {
      JoinAppend(xs[1..], ys);
      assert (xs + ys)[1..] == xs[1..] + ys;
    }
  }

  // Reading on from an unfinished line gives the same lines as reading everything at once.
  lemma LinesAppend(a: Bytes, b: Bytes)
    ensures Lines(a + b) == Lines(a) + Lines(Tail(a) + b)
    ensures Tail(a + b) == Tail(Tail(a) + b)
  {
    var xs, ys, t := Lines(a), Lines(Tail(a) + b), Tail(Tail(a) + b);
    JoinOfLines(a);
    JoinOfLines(Tail(a) + b);
    JoinAppend(xs, ys);
    Regroup(Join(xs), Join(ys), t, Tail(a), a, b);
    LinesOfJoin(xs + ys, t);
  }

  lemma Regroup(xs: Bytes, ys: Bytes, t: Bytes, ta: Bytes, a: Bytes, b: Bytes)
    requires ys + t == ta + b && xs + ta == a
    ensures xs + ys + t == a + b
  {
    assert xs + ys + t == xs + (ys + t);
    assert xs + (ta + b) == xs + ta + b;
  }

  lemma {:induction false} FlattenAppend(xs: seq<Bytes>, ys: seq<Bytes>)
    ensures Flatten(xs + ys) == Flatten(xs) + Flatten(ys)
  {
    if xs == [] {
      assert xs + ys == ys;
    } else {
      FlattenAppend(xs[1..], ys);
      assert (xs + ys)[1..] == xs[1..] + ys;
    }
  }

  // ---------------------------------------------------------------- acceptance

  // Parsing one line and validating the parsed record with its line number.
  datatype Validator<!J> = Validator(parse: Bytes -> Option<J>, check: (J, nat) -> bool)

  predicate LineOk<J>(v: Validator<J>, line: Bytes, number: nat) {
    && 0 < |line| <= MAX_LINE_BYTES
    && v.parse(line).Some?
    && v.check(v.parse(line).value, number)
  }

  predicate LinesOk<J>(v: Validator<J>, lines: seq<Bytes>) {
    forall k | 0 <= k < |lines| :: LineOk(v, lines[k], k + 1)
  }

  // A validator call: the line whose record it got, and the line number.
  datatype Call = Call(line: Bytes, number: nat)

  function Calls(lines: seq<Bytes>): (calls: seq<Call>)
    ensures |calls| == |lines| && forall k | 0 <= k < |lines| :: calls[k] == Call(lines[k], k + 1)
  {
    seq(|lines|, k requires 0 <= k < |lines| => Call(lines[k], k + 1))
  }

  // Newline-terminated, non-empty lines within the limit that all validate.
  predicate WholeOk<J>(v: Validator<J>, content: Bytes) {
    Tail(content) == [] && LinesOk(v, Lines(content))
  }

  predicate Acceptable<J>(content: Bytes, maximum: nat, validator: Option<Validator<J>>) {
    |content| <= maximum && (validator.Some? ==> WholeOk(validator.value, content))
  }

  datatype Material = Material(sha: Digest, byteCount: nat, payload: Option<Bytes>, lineCount: Option<nat>)

  function MaterialOf(content: Bytes, capture: bool, validated: bool, sha256: Bytes -> Digest): Material {
    Material(sha256(content), |content|, if capture then Some(content) else None,
             if validated then Some(|Lines(content)|) else None)
  }

  datatype ReadError = TooLarge | OversizedLine | EmptyLine | InvalidJson | InvalidRecord | Unterminated | Changed

  lemma FirstNewlineAfter(t: Bytes, b: Bytes)
    requires NEWLINE !in t
    ensures FirstNewline(t + b) == |t| + FirstNewline(b)
  {
    var k := FirstNewline(b);
    assert (t + b)[..|t| + k] == t + b[..k];
    FirstNewlineIs(t + b, |t| + k);
  }

  // A line longer than the limit is rejected once it starts, whatever follows.
  lemma LongTailSpoils<J>(v: Validator<J>, a: Bytes, b: Bytes)
    requires |Tail(a)| > MAX_LINE_BYTES
    ensures !WholeOk(v, a + b)
  {
    LinesAppend(a, b);
    JoinOfLines(a);
    FirstNewlineAfter(Tail(a), b);
    var rest := Tail(a) + b;
    var k := FirstNewline(rest);
    if k < |rest| {
      assert Lines(a + b)[|Lines(a)|] == rest[..k];
      assert !LineOk(v, Lines(a + b)[|Lines(a)|], |Lines(a)| + 1);
    }
  }

  // One more line, in the middle of all the lines.
  lemma TakeLine<J>(v: Validator<J>, all: seq<Bytes>, seen: seq<Bytes>, line: Bytes, more: seq<Bytes>)
    requires all == seen + ([line] + more)
    ensures all == (seen + [line]) + more
    ensures Calls(seen) <= Calls(all)
    ensures Calls(seen + [line]) == Calls(seen) + [Call(line, |seen| + 1)] <= Calls(all)
    ensures LinesOk(v, seen) ==> (LinesOk(v, seen + [line]) <==> LineOk(v, line, |seen| + 1))
    ensures LinesOk(v, all) ==> LineOk(v, line, |seen| + 1)
  {
    assert all[|seen|] == line;
    assert (seen + [line])[|seen|] == line;
  }

  lemma BadLinesSpoil<J>(v: Validator<J>, a: Bytes, b: Bytes)
    requires !LinesOk(v, Lines(a))
    ensures !WholeOk(v, a + b)
  {
    LinesAppend(a, b);
    var k :| 0 <= k < |Lines(a)| && !LineOk(v, Lines(a)[k], k + 1);
    assert Lines(a + b)[k] == Lines(a)[k];
  }

  lemma CallsPrefix(seen: seq<Bytes>, more: seq<Bytes>)
    ensures Calls(seen) <= Calls(seen + more)
  {
  }

  // The lines seen so far are the first lines of the whole file.
  lemma LinesPrefix(a: Bytes, b: Bytes)
    ensures Calls(Lines(a)) <= Calls(Lines(a + b))
  {
    LinesAppend(a, b);
    CallsPrefix(Lines(a), Lines(Tail(a) + b));
  }

  lemma {:induction false} NewlineFound(pending: Bytes)
    requires NEWLINE in pending
    ensures FirstNewline(pending) < |pending|
  {
    assert pending[..|pending|] == pending;
  }

  lemma {:induction false} NextOfLines(pending: Bytes, cut: nat)
    requires cut == FirstNewline(pending) < |pending|
    ensures Lines(pending) == [pending[..cut]] + Lines(pending[cut + 1..])
  {
  }

  lemma {:induction false} TailAfterLine(pending: Bytes, cut: nat)
    requires cut == FirstNewline(pending) < |pending|
    ensures Tail(pending) == Tail(pending[cut + 1..])
  {
  }

  lemma {:induction false} NextLine(pending: Bytes)
    requires NEWLINE in pending
    ensures
      var cut := FirstNewline(pending);
      && cut < |pending|
      && Lines(pending) == [pending[..cut]] + Lines(pending[cut + 1..])
      && Tail(pending) == Tail(pending[cut + 1..])
  {
    NewlineFound(pending);
    NextOfLines(pending, FirstNewline(pending));
    TailAfterLine(pending, FirstNewline(pending));
  }

  // ---------------------------------------------------------------- the reader

  // Splits the finished lines off `pending` and validates them in order.
  method DrainLines<J>(v: Validator<J>, count: nat, pending: Bytes, calls: seq<Call>, ghost done: seq<Bytes>)
    returns (error: Option<ReadError>, count': nat, pending': Bytes, calls': seq<Call>)
    requires LinesOk(v, done) && calls == Calls(done) && count == |done|
    ensures error.None? <==> LinesOk(v, done + Lines(pending))
    ensures error.None? ==>
              count' == |done| + |Lines(pending)| && pending' == Tail(pending) && calls' == Calls(done + Lines(pending))
    ensures calls' <= Calls(done + Lines(pending))
  {
    error, count', pending', calls' := None, count, pending, calls;
    ghost var seen, all := done, done + Lines(pending);
    while NEWLINE in pending'
      invariant all == seen + Lines(pending') && Tail(pending) == Tail(pending')
      invariant LinesOk(v, seen) && calls' == Calls(seen) && count' == |seen|
      decreases |pending'|
    {
      NextLine(pending');
      var cut := FirstNewline(pending');
      var line := pending'[..cut];
      pending' := pending'[cut + 1..];
      TakeLine(v, all, seen, line, Lines(pending'));
      seen := seen + [line];
      count' := count' + 1;
      if |line| > MAX_LINE_BYTES {
        return Some(OversizedLine), count', pending', calls';
      }
      if |line| == 0 {
        return Some(EmptyLine), count', pending', calls';
      }
      var record := v.parse(line);
      if record.None? {
        return Some(InvalidJson), count', pending', calls';
      }
      calls' := calls' + [Call(line, count')];
      if !v.check(record.value, count') {
        return Some(InvalidRecord), count', pending', calls';
      }
    }
    LinesOfTail(pending');
    assert seen + [] == seen;
  }

  // One chunk of a validated file, after `before` and in front of `rest`.
  method AbsorbLines<J>(v: Validator<J>, count: nat, pending: Bytes, calls: seq<Call>, chunk: Bytes,
                        ghost before: Bytes, ghost rest: Bytes)
    returns (error: Option<ReadError>, count': nat, pending': Bytes, calls': seq<Call>)
    requires LinesOk(v, Lines(before)) && calls == Calls(Lines(before)) && count == |Lines(before)| &&
             pending == Tail(before)
    ensures error.None? ==>
              var now := before + chunk;
              LinesOk(v, Lines(now)) && calls' == Calls(Lines(now)) && count' == |Lines(now)| && pending' == Tail(now)
    ensures error.Some? ==> !WholeOk(v, before + chunk + rest)
    ensures calls' <= Calls(Lines(before + chunk + rest))
  {
    LinesAppend(before, chunk);
    LinesPrefix(before + chunk, rest);
    error, count', pending', calls' := DrainLines(v, count, pending + chunk, calls, Lines(before));
    if error.Some? {
      BadLinesSpoil(v, before + chunk, rest);
    } else if |pending'| > MAX_LINE_BYTES {
      LongTailSpoils(v, before + chunk, rest);
      error := Some(OversizedLine);
    }
  }

  // Reads the chunks that successive read calls return; `size` is the size that stat gave.
  method InspectFile<J>(chunks: seq<Bytes>, size: nat, maximum: nat, capture: bool, validator: Option<Validator<J>>,
                        sha256: Bytes -> Digest)
    returns (r: Result<Material, ReadError>, calls: seq<Call>)
    ensures r.Success? <==> size == |Flatten(chunks)| && Acceptable(Flatten(chunks), maximum, validator)
    ensures r.Success? ==> r.value == MaterialOf(Flatten(chunks), capture, validator.Some?, sha256)
    ensures validator.None? ==> calls == []
    ensures r.Success? && validator.Some? ==> calls == Calls(Lines(Flatten(chunks)))
    ensures calls <= Calls(Lines(Flatten(chunks)))
  {
    ghost var content := Flatten(chunks);
    calls := [];
    if size > maximum {
      return Failure(TooLarge), calls;
    }
    var absorbed, captured, byteCount, lineCount, pending := [], [], 0, 0, [];
    assert chunks[..0] == [] && chunks[0..] == chunks;
    for n := 0 to |chunks|
      invariant absorbed == Flatten(chunks[..n]) && content == absorbed + Flatten(chunks[n..])
      invariant byteCount == |absorbed| <= maximum
      invariant captured == if capture then absorbed else []
      invariant Progress(validator, absorbed, lineCount, pending, calls)
      invariant calls <= Calls(Lines(content))
    {
      var chunk := chunks[n];
      ghost var before, rest := absorbed, Flatten(chunks[n + 1..]);
      NextChunk(chunks, n, before, content);
      byteCount := byteCount + |chunk|;
      if byteCount > maximum {
        return Failure(TooLarge), calls;
      }
      absorbed := absorbed + chunk;
      if capture {
        captured := captured + chunk;
      }
      if validator.Some? {
        var error;
        error, lineCount, pending, calls := AbsorbLines(validator.value, lineCount, pending, calls, chunk,
                                                        before, rest);
        if error.Some? {
          return Failure(error.value), calls;
        }
      }
    }
    assert chunks[..|chunks|] == chunks;
    if validator.Some? && pending != [] {
      return Failure(Unterminated), calls;
    }
    if byteCount != size {
      return Failure(Changed), calls;
    }
    r := Success(Material(sha256(absorbed), byteCount,
                          if capture then Some(captured) else None,
                          if validator.Some? then Some(lineCount) else None));
  }

  // What the loop has established about the bytes absorbed so far.
  predicate Progress<J>(validator: Option<Validator<J>>, absorbed: Bytes, lineCount: nat, pending: Bytes,
                        calls: seq<Call>) {
    match validator
    case None => calls == []
    case Some(v) =>
      && LinesOk(v, Lines(absorbed)) && calls == Calls(Lines(absorbed))
      && lineCount == |Lines(absorbed)| && pending == Tail(absorbed)
  }

  lemma NextChunk(chunks: seq<Bytes>, n: nat, before: Bytes, content: Bytes)
    requires n < |chunks| && before == Flatten(chunks[..n]) && content == before + Flatten(chunks[n..])
    ensures Flatten(chunks[..n + 1]) == before + chunks[n]
    ensures content == before + chunks[n] + Flatten(chunks[n + 1..])
  {
    FlattenAppend(chunks[..n], [chunks[n]]);
    assert chunks[..n + 1] == chunks[..n] + [chunks[n]];
    assert Flatten([chunks[n]]) == chunks[n] + Flatten([]) == chunks[n];
    assert chunks[n..][0] == chunks[n] && chunks[n..][1..] == chunks[n + 1..];
  }

  // A content is acceptable exactly when it is some list of validated lines, each followed
  // by one newline and none holding one: the verdict speaks of the bytes, not of chunks.
  lemma AcceptableIsJoined<J>(content: Bytes, maximum: nat, v: Validator<J>)
    ensures Acceptable(content, maximum, Some(v))
       <==> |content| <= maximum && exists lines :: Unbroken(lines, []) && Join(lines) == content && LinesOk(v, lines)
  {
    JoinOfLines(content);
    if Tail(content) == [] {
      assert Join(Lines(content)) == content;
    }
    forall lines | Unbroken(lines, []) && Join(lines) == content
      ensures Lines(content) == lines && Tail(content) == []
    {
      assert Join(lines) + [] == content;
      LinesOfJoin(lines, []);
    }
  }
}
