// What labelling and verifying a ranking snapshot promise each other.
module LabelTheorems {
  import opened Common
  import opened JsonlReader
  import opened LabelSnapshot

  // ---------------------------------------------------------------- one row

  lemma UngradeGrade(candidate: Json, grade: int)
    requires candidate.Obj? && GRADE !in candidate.fields
    ensures Ungrade(Grade(candidate, grade)) == candidate
  {
    assert candidate.fields[GRADE := Int(grade)] - {GRADE} == candidate.fields;
  }

  // No candidate of a committed row can carry a grade.
  lemma CommittedHasNoGrade(c: Codec, row: Json, k: nat)
    requires Fold(c, GRADE) == GRADE && LabelFree(c, row) && IsRow(row) && k < |Candidates(row)|
    ensures GRADE !in Candidates(row)[k].fields
  {
    assert LabelFree(c, row.fields[CANDIDATES]);
    assert LabelFree(c, Candidates(row)[k]);
  }

  lemma UnlabelLabel(c: Codec, row: Json, labels: map<string, nat>)
    requires Fold(c, GRADE) == GRADE && LabelFree(c, row) && IsRow(row) && Labelled(Candidates(row), labels)
    ensures IsRow(LabelRow(row, labels)) && UnlabelRow(LabelRow(row, labels)) == row
  {
    var cs := Candidates(row);
    var labelled := LabelAll(cs, labels);
    forall k | 0 <= k < |cs|
      ensures Ungrade(labelled[k]) == cs[k]
    {
      CommittedHasNoGrade(c, row, k);
      UngradeGrade(cs[k], LabelOf(cs[k], labels));
    }
    assert UngradeAll(labelled) == cs;
    assert LabelRow(row, labels).fields[CANDIDATES := Arr(cs)] == row.fields;
  }

  lemma LabelKeepsId(c: Codec, row: Json, labels: map<string, nat>)
    requires HasId(c, row) && IsRow(row) && Labelled(Candidates(row), labels)
    ensures HasId(c, LabelRow(row, labels)) && RowId(c, LabelRow(row, labels)) == RowId(c, row)
  {
    assert |QUERY_ID| != |CANDIDATES|;
  }

  lemma GradeIsWellFormed(c: Codec, candidate: Json, grade: nat)
    requires Faithful(c) && candidate.Obj? && WellFormed(c, candidate) && grade <= MAX_GRADE
    ensures WellFormed(c, Grade(candidate, grade))
  {
    assert WellFormed(c, Int(grade));
  }

  lemma LabelledIsWellFormed(c: Codec, row: Json, labels: map<string, nat>)
    requires Faithful(c) && WellFormed(c, row) && IsRow(row) && Labelled(Candidates(row), labels)
    requires forall id | id in labels :: labels[id] <= MAX_GRADE
    ensures WellFormed(c, LabelRow(row, labels))
  {
    var cs := Candidates(row);
    var labelled := LabelAll(cs, labels);
    assert WellFormed(c, row.fields[CANDIDATES]);
    forall k | 0 <= k < |cs|
      ensures WellFormed(c, labelled[k])
    {
      assert WellFormed(c, cs[k]) && HasLabel(cs[k], labels);
      GradeIsWellFormed(c, cs[k], LabelOf(cs[k], labels));
    }
    assert WellFormed(c, Arr(labelled));
  }

  lemma UnlabelledIsWellFormed(c: Codec, row: Json)
    requires WellFormed(c, row) && IsRow(row)
    ensures WellFormed(c, UnlabelRow(row))
  {
    var cs := Candidates(row);
    assert WellFormed(c, row.fields[CANDIDATES]);
    forall k | 0 <= k < |cs|
      ensures WellFormed(c, Ungrade(cs[k]))
    {
      assert WellFormed(c, cs[k]);
    }
    assert WellFormed(c, Arr(UngradeAll(cs)));
  }

  lemma LabelledRowVerifies(c: Codec, row: Json, committed: map<string, Digest>, q: Qrel)
    requires Fold(c, GRADE) == GRADE && CommittedRow(c, row, committed) && ValidQrel(q) &&
             Labelled(Candidates(row), q.labels)
    ensures VerifiedRow(c, LabelRow(row, q.labels), committed)
  {
    var labelled := LabelRow(row, q.labels);
    UnlabelLabel(c, row, q.labels);
    LabelKeepsId(c, row, q.labels);
    forall k | 0 <= k < |Candidates(row)|
      ensures Graded(Candidates(labelled)[k])
    {
      assert HasLabel(Candidates(row)[k], q.labels);
    }
  }

  // ---------------------------------------------------------------- the file

  lemma RawLinesOfJoin(lines: seq<Bytes>)
    requires Unbroken(lines, [])
    ensures RawLines(Join(lines)) == Terminated(lines)
  {
    assert Join(lines) + [] == Join(lines);
    LinesOfJoin(lines, []);
  }

  lemma {:induction false} ReadWritten(c: Codec, rows: seq<Json>)
    requires forall k | 0 <= k < |rows| :: rows[k].Obj? && WritesOneLine(c, rows[k])
    ensures ReadRows(c, Terminated(Written(c, rows))) == if AllFit(c, rows) then Some(rows) else None
  {
    if rows != [] {
      var front, last := rows[..|rows| - 1], rows[|rows| - 1];
      ReadWritten(c, front);
      var lines := Terminated(Written(c, rows));
      assert lines[..|lines| - 1] == Terminated(Written(c, front));
      assert lines[|lines| - 1] == c.write(last) + [NEWLINE];
      assert rows == front + [last];
      assert AllFit(c, rows) <==> FitsLine(c, last) && AllFit(c, front);
    }
  }

  lemma ReadEncoded(c: Codec, rows: seq<Json>)
    requires Faithful(c) && AllWellFormed(c, rows) && forall k | 0 <= k < |rows| :: rows[k].Obj?
    ensures ReadRows(c, RawLines(Encode(c, rows))) == if AllFit(c, rows) then Some(rows) else None
  {
    assert forall k | 0 <= k < |rows| :: WritesOneLine(c, rows[k]);
    RawLinesOfJoin(Written(c, rows));
    ReadWritten(c, rows);
  }

  predicate AllWellFormed(c: Codec, rows: seq<Json>) {
    forall k | 0 <= k < |rows| :: WellFormed(c, rows[k])
  }

  // Rows read from a file are values that can be written again.
  lemma {:induction false} ReadAreWellFormed(c: Codec, lines: seq<Bytes>)
    requires Faithful(c) && ReadRows(c, lines).Some?
    ensures AllWellFormed(c, ReadRows(c, lines).value)
  {
    if lines != [] {
      ReadAreWellFormed(c, lines[..|lines| - 1]);
      assert ReadsWellFormed(c, lines[|lines| - 1]);
    }
  }

  ghost predicate Accepted(c: Codec, content: Bytes, expected: map<string, Digest>, snapshotSha: Digest,
                           evidence: map<string, Group>) {
    && ReadRows(c, RawLines(content)).Some?
    && VerifiedRows(c, ReadRows(c, RawLines(content)).value, expected)
    && Bound(evidence, expected, snapshotSha)
  }

  lemma RowOf(c: Codec, rows: seq<Json>, id: string) returns (k: nat)
    requires DistinctRows(c, rows) && id in RowIds(c, rows)
    ensures k < |rows| && RowId(c, rows[k]) == id
  {
    k :| k < |rows| && RowId(c, rows[k]) == id;
  }

  lemma InOrderIsOnce(c: Codec, rows: seq<Json>, order: seq<string>, keys: set<string>)
    requires Enumerates(order, keys) && |rows| == |order|
    requires forall k | 0 <= k < |rows| :: HasId(c, rows[k]) && RowId(c, rows[k]) == order[k]
    ensures DistinctRows(c, rows) && RowIds(c, rows) == keys
  {
    forall id | id in keys
      ensures id in RowIds(c, rows)
    {
      assert id in SetOf(order);
      var k: nat :| k < |order| && order[k] == id;
      assert RowId(c, rows[k]) == id;
    }
    forall id | id in RowIds(c, rows)
      ensures id in keys
    {
      var k := RowOf(c, rows, id);
      assert order[k] in SetOf(order);
    }
  }

  lemma LabelledRowVerifiesAt(c: Codec, x: Lineage, order: seq<string>, labelled: seq<Json>, k: nat)
    requires Fold(c, GRADE) == GRADE && Committed(c, x.rows, x.committed) && k < |order|
    requires forall id | id in x.qrels :: ValidQrel(x.qrels[id])
    requires LabelledRows(c, x, order, labelled)
    ensures VerifiedRow(c, labelled[k], x.committed) && RowId(c, labelled[k]) == order[k]
  {
    assert order[k] in SetOf(order);
    assert QueryLabelable(c, x, order[k]) && CommittedRow(c, x.rows[order[k]], x.committed);
    LabelledRowVerifies(c, x.rows[order[k]], x.committed, x.qrels[order[k]]);
    LabelKeepsId(c, x.rows[order[k]], x.qrels[order[k]].labels);
  }

  lemma LabelledRowsVerify(c: Codec, x: Lineage, order: seq<string>, labelled: seq<Json>)
    requires Fold(c, GRADE) == GRADE && Committed(c, x.rows, x.committed)
    requires forall id | id in x.qrels :: ValidQrel(x.qrels[id])
    requires LabelledRows(c, x, order, labelled)
    ensures VerifiedRows(c, labelled, x.committed)
  {
    forall k | 0 <= k < |order|
      ensures VerifiedRow(c, labelled[k], x.committed) && RowId(c, labelled[k]) == order[k]
    {
      LabelledRowVerifiesAt(c, x, order, labelled, k);
    }
    InOrderIsOnce(c, labelled, order, x.rows.Keys);
  }

  lemma LabelledAreWellFormed(c: Codec, x: Lineage, order: seq<string>, labelled: seq<Json>)
    requires Faithful(c) && Committed(c, x.rows, x.committed) && LabelledRows(c, x, order, labelled)
    requires forall id | id in x.qrels :: ValidQrel(x.qrels[id])
    ensures AllWellFormed(c, labelled) && forall k | 0 <= k < |labelled| :: labelled[k].Obj?
  {
    forall k | 0 <= k < |labelled|
      ensures WellFormed(c, labelled[k]) && labelled[k].Obj?
    {
      assert order[k] in SetOf(order);
      assert CommittedRow(c, x.rows[order[k]], x.committed) && QueryLabelable(c, x, order[k]);
      assert ValidQrel(x.qrels[order[k]]);
      LabelledIsWellFormed(c, x.rows[order[k]], x.qrels[order[k]].labels);
    }
  }

  // A materialised file is accepted exactly when no labelled line grew beyond the limit of the
  // verifier; the limit held for the lines without their grades.
  lemma MaterializedVerifies(c: Codec, x: Lineage, order: seq<string>, labelled: seq<Json>)
    requires Faithful(c) && Committed(c, x.rows, x.committed)
    requires forall id | id in x.qrels :: ValidQrel(x.qrels[id])
    requires LabelledRows(c, x, order, labelled)
    ensures Accepted(c, Encode(c, labelled), x.committed, x.snapshotSha, x.evidence) <==> AllFit(c, labelled)
  {
    LabelledRowsVerify(c, x, order, labelled);
    LabelledAreWellFormed(c, x, order, labelled);
    ReadEncoded(c, labelled);
    LabelableIsBound(c, x);
  }

  lemma LabelableIsBound(c: Codec, x: Lineage)
    requires AllLabelable(c, x)
    ensures Bound(x.evidence, x.committed, x.snapshotSha)
  {
    forall id | id in x.evidence
      ensures x.evidence[id].snapshotSha == x.snapshotSha && x.evidence[id].rowSha == x.committed[id]
    {
      assert QueryLabelable(c, x, id);
    }
  }

  // ---------------------------------------------------------------- what acceptance means

  // The committed row with some grade on every candidate.
  ghost predicate OneGradeEach(committed: Json, labelled: Json)
  {
    && IsRow(committed) && IsRow(labelled)
    && |Candidates(labelled)| == |Candidates(committed)|
    && labelled == WithCandidates(committed, Candidates(labelled))
    && forall k | 0 <= k < |Candidates(committed)| ::
         && Graded(Candidates(labelled)[k])
         && Candidates(labelled)[k] == Grade(Candidates(committed)[k], Candidates(labelled)[k].fields[GRADE].n)
  }

  lemma UngradedIs(candidate: Json)
    requires Graded(candidate)
    ensures candidate == Grade(Ungrade(candidate), candidate.fields[GRADE].n)
  {
    assert (candidate.fields - {GRADE})[GRADE := candidate.fields[GRADE]] == candidate.fields;
  }

  lemma GradedRowIs(c: Codec, row: Json)
    requires GradedRow(c, row)
    ensures IsRow(UnlabelRow(row)) && OneGradeEach(UnlabelRow(row), row)
  {
    var cs := Candidates(row);
    forall k | 0 <= k < |cs|
      ensures cs[k] == Grade(Ungrade(cs[k]), cs[k].fields[GRADE].n)
    {
      UngradedIs(cs[k]);
    }
    assert UnlabelRow(row).fields[CANDIDATES := Arr(cs)] == row.fields;
  }

  lemma AcceptedRow(c: Codec, x: Lineage, row: Json)
    requires HashPins(c) && Committed(c, x.rows, x.committed) && VerifiedRow(c, row, x.committed) && WellFormed(c, row)
    ensures RowId(c, row) in x.rows && IsRow(x.rows[RowId(c, row)]) && OneGradeEach(x.rows[RowId(c, row)], row)
    ensures UnlabelRow(row) == x.rows[RowId(c, row)]
  {
    var id := RowId(c, row);
    assert id in x.rows.Keys && CommittedRow(c, x.rows[id], x.committed);
    UnlabelledIsWellFormed(c, row);
    assert SameHash(c, UnlabelRow(row), x.rows[id]);
    GradedRowIs(c, row);
  }

  // The rows of an accepted file are the committed ones, each once, with the same candidates in
  // the same order and one grade between 0 and 4 on each.
  lemma AcceptedAreCommitted(c: Codec, x: Lineage, content: Bytes)
    requires Faithful(c) && HashPins(c) && Committed(c, x.rows, x.committed)
    requires Accepted(c, content, x.committed, x.snapshotSha, x.evidence)
    ensures var rows := ReadRows(c, RawLines(content)).value;
            && RowIds(c, rows) == x.rows.Keys
            && forall k | 0 <= k < |rows| ::
                 RowId(c, rows[k]) in x.rows && OneGradeEach(x.rows[RowId(c, rows[k])], rows[k])
  {
    var rows := ReadRows(c, RawLines(content)).value;
    ReadAreWellFormed(c, RawLines(content));
    forall k | 0 <= k < |rows|
      ensures RowId(c, rows[k]) in x.rows && IsRow(x.rows[RowId(c, rows[k])]) &&
              OneGradeEach(x.rows[RowId(c, rows[k])], rows[k])
    {
      AcceptedRow(c, x, rows[k]);
    }
  }
}
