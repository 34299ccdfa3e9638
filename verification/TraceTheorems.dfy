/** What a trace analysis may claim: causality, and no claim unmade by an earlier result. */
module TraceTheorems {
  import opened Wrappers
  import opened CanonicalJson
  import opened CanonicalPrint
  import opened Commitments
  import opened Provenance
  import opened LiveProvenance
  import opened ProvenanceTrace

  /** The leaves a result contributes. */
  function Contributed(r: Record): seq<SourceLeaf> { SourceLeaves(SourceOf(r)) }

  lemma {:induction false} LeafHasRecord(records: seq<Record>, l: SourceLeaf)
    ensures l in SourceLeaves(SourcesIn(records)) <==> exists m :: 0 <= m < |records| && l in Contributed(records[m])
  {
    if records != [] {
      LeafHasRecord(records[1..], l);
      LeavesAppend(SourceOf(records[0]), SourcesIn(records[1..]));
      assert forall m :: 0 < m < |records| ==> records[m] == records[1..][m - 1];
      assert forall m :: 0 <= m < |records| - 1 ==> records[1..][m] == records[m + 1];
    }
  }

  function Args(args: Value): seq<Leaf> { Walk(args, Ascii("args")) }

  /** The row a call gets for its argument leaf j; None if there is no such leaf or it throws. */
  function RowAt(h: Host, before: seq<Record>, args: Value, j: nat): Option<Resolution> {
    var rows := Computed(h, before, args);
    if rows.None? || j >= |rows.value| then None else Some(rows.value[j])
  }

  predicate GroundedRow(r: Option<Resolution>) { r.Some? && r.value.Grounded? }

  function ReasonsAfter(before: seq<Record>): seq<Reason> {
    var notes := Joined(NotesIn(before));
    Unaddressed(Gaps(SourcesIn(before))) + (if notes == [] then [] else [Corpus(notes)])
  }

  lemma RowIs(h: Host, before: seq<Record>, args: Value, j: nat)
    requires Guarded(args) && j < |Args(args)|
    ensures var leaf := Args(args)[j];
      RowAt(h, before, args, j) ==
      Some(Veil(Args(args), Outcome(leaf, Find(h, SourceLeaves(SourcesIn(before)), leaf.value), ReasonsAfter(before))))
  {
  }

  /** A row is grounded exactly when its argument is not redacted and a leaf of the sources matches. */
  lemma GroundedExactly(h: Host, before: seq<Record>, args: Value, j: nat)
    requires Guarded(args) && j < |Args(args)|
    ensures GroundedRow(RowAt(h, before, args, j)) <==>
      && !RedactedAt(Args(args), Args(args)[j].path)
      && exists l :: l in SourceLeaves(SourcesIn(before)) && Matches(h, l, Args(args)[j].value)
  {
    RowIs(h, before, args, j);
    FindExactly(h, SourceLeaves(SourcesIn(before)), Args(args)[j].value);
  }

  ghost predicate MatchedBy(h: Host, r: Record, v: Scalar) { exists l :: l in Contributed(r) && Matches(h, l, v) }

  /** No later result grounds anything: every grounded row of a computed call matches a leaf of
      a usable result that came back before it. */
  lemma {:induction false} GroundedInThePast(h: Host, records: seq<Record>, k: nat, j: nat)
    requires k < |records| && records[k].Call? && FirstProv(records, records[k].i).None?
    requires !Skipped(records, records[k].i)
    requires Guarded(records[k].args) && j < |Args(records[k].args)|
    ensures RowsAt(h, records, k).Some? && |RowsAt(h, records, k).value| == 1
    ensures var rows := RowsAt(h, records, k).value[0].rows;
      |rows| == |Args(records[k].args)| && (rows[j].Grounded? ==>
        exists m :: 0 <= m < k && Usable(records[m]) && MatchedBy(h, records[m], Args(records[k].args)[j].value))
  {
    var args := records[k].args;
    var v := Args(args)[j].value;
    GroundedExactly(h, records[..k], args, j);
    if GroundedRow(RowAt(h, records[..k], args, j)) {
      var l :| l in SourceLeaves(SourcesIn(records[..k])) && Matches(h, l, v);
      LeafHasRecord(records[..k], l);
      var m :| 0 <= m < k && l in Contributed(records[..k][m]);
      assert records[..k][m] == records[m] && MatchedBy(h, records[m], v);
    }
  }

  /** Two traces that agree up to a call, on whether it went out, and on having no rows of their
      own for it, resolve it alike. */
  lemma {:induction false} Causal(h: Host, r1: seq<Record>, r2: seq<Record>, k: nat)
    requires k < |r1| && k < |r2| && r1[..k + 1] == r2[..k + 1] && r1[k].Call?
    requires FirstProv(r1, r1[k].i).None? && FirstProv(r2, r1[k].i).None?
    requires Skipped(r1, r1[k].i) == Skipped(r2, r1[k].i)
    ensures RowsAt(h, r1, k) == RowsAt(h, r2, k)
  {
    assert r1[..k] == r1[..k + 1][..k] && r2[..k] == r2[..k + 1][..k];
    assert r1[k] == r1[..k + 1][k] && r2[k] == r2[..k + 1][k];
  }

  /** An earlier result, usable or not, redacted or not, never takes a grounding away. */
  lemma {:induction false} EarlierResultKeepsGrounded(h: Host, a: seq<Record>, rec: Record, b: seq<Record>, args: Value,
                                                      j: nat)
    requires Guarded(args) && j < |Args(args)|
    ensures GroundedRow(RowAt(h, a + b, args, j)) ==> GroundedRow(RowAt(h, a + [rec] + b, args, j))
  {
    var without, with := a + b, a + [rec] + b;
    GroundedExactly(h, without, args, j);
    GroundedExactly(h, with, args, j);
    if GroundedRow(RowAt(h, without, args, j)) {
      var l :| l in SourceLeaves(SourcesIn(without)) && Matches(h, l, Args(args)[j].value);
      MoreRecords(a, rec, b, l);
    }
  }

  lemma MoreRecords(a: seq<Record>, rec: Record, b: seq<Record>, l: SourceLeaf)
    requires l in SourceLeaves(SourcesIn(a + b))
    ensures l in SourceLeaves(SourcesIn(a + [rec] + b))
  {
    var without, with := a + b, a + [rec] + b;
    LeafHasRecord(without, l);
    var m :| 0 <= m < |without| && l in Contributed(without[m]);
    assert with[if m < |a| then m else m + 1] == without[m];
    LeafHasRecord(with, l);
  }

  /** A redacted argument is never called grounded or authored. */
  lemma RedactedIsUnresolved(h: Host, before: seq<Record>, args: Value, j: nat)
    requires Guarded(args) && j < |Args(args)| && RedactedAt(Args(args), Args(args)[j].path)
    ensures RowAt(h, before, args, j) == Some(Unresolved(Args(args)[j].path, [RedactedArgument]))
  {
    RowIs(h, before, args, j);
    VeilHides(Args(args), Args(args)[j], Find(h, SourceLeaves(SourcesIn(before)), Args(args)[j].value),
              ReasonsAfter(before));
  }

  lemma VeilHides(leaves: seq<Leaf>, leaf: Leaf, hit: Option<Hit>, reasons: seq<Reason>)
    requires RedactedAt(leaves, leaf.path)
    ensures Veil(leaves, Outcome(leaf, hit, reasons)) == Unresolved(leaf.path, [RedactedArgument])
  {
    assert Outcome(leaf, hit, reasons).path == leaf.path;
  }

  /** A usable result of which not everything is known. */
  predicate HeldInPart(r: Record) { Usable(r) && (Masked(r.body) || r.body.Undefined?) }

  lemma {:induction false} NothingMissing(records: seq<Record>)
    ensures NotesIn(records) == [] && Gaps(SourcesIn(records)) == [] <==>
      forall m :: 0 <= m < |records| ==> !HeldInPart(records[m])
  {
    if records != [] {
      NothingMissing(records[1..]);
      GapsAppend(SourceOf(records[0]), SourcesIn(records[1..]));
      assert SourcesIn(records) == SourceOf(records[0]) + SourcesIn(records[1..]);
      assert NotesIn(records) == NoteOf(records[0]) + NotesIn(records[1..]);
      HeldHead(records[0]);
      assert forall m :: 0 < m < |records| ==> records[m] == records[1..][m - 1];
      assert forall m :: 0 <= m < |records| - 1 ==> records[1..][m] == records[m + 1];
    }
  }

  lemma HeldHead(r: Record)
    ensures NoteOf(r) == [] && Gaps(SourceOf(r)) == [] <==> !HeldInPart(r)
  {
    if Usable(r) {
      var sources := SourceOf(r);
      assert sources[1..] == [] && Gaps(sources) == GapOf(sources[0]) + [];
      assert sources[0].value.Undefined? <==> r.body.Undefined?;
    }
  }

  lemma NoReasons(records: seq<Record>)
    ensures ReasonsAfter(records) == [] <==> forall m :: 0 <= m < |records| ==> !HeldInPart(records[m])
  {
    NothingMissing(records);
    NoteTexts(records);
    assert |Unaddressed(Gaps(SourcesIn(records)))| == |Gaps(SourcesIn(records))|;
  }

  lemma NoReasonsBefore(records: seq<Record>, k: nat)
    requires k <= |records|
    ensures ReasonsAfter(records[..k]) == [] <==> forall m :: 0 <= m < k ==> !HeldInPart(records[m])
  {
    NoReasons(records[..k]);
    assert forall m :: 0 <= m < k ==> records[..k][m] == records[m];
  }

  ghost predicate MatchedBefore(h: Host, records: seq<Record>, k: nat, v: Scalar)
    requires k <= |records|
  {
    exists m :: 0 <= m < k && MatchedBy(h, records[m], v)
  }

  lemma MatchedBeforeExactly(h: Host, records: seq<Record>, k: nat, v: Scalar)
    requires k <= |records|
    ensures MatchedBefore(h, records, k, v) <==>
      exists l :: l in SourceLeaves(SourcesIn(records[..k])) && Matches(h, l, v)
  {
    if m :| 0 <= m < k && MatchedBy(h, records[m], v) {
      var l :| l in Contributed(records[m]) && Matches(h, l, v);
      assert l in Contributed(records[..k][m]);
      LeafHasRecord(records[..k], l);
    }
    if l :| l in SourceLeaves(SourcesIn(records[..k])) && Matches(h, l, v) {
      LeafHasRecord(records[..k], l);
      var m :| 0 <= m < k && l in Contributed(records[..k][m]);
      assert MatchedBy(h, records[m], v);
    }
  }

  /** The state of every row of a computed call, by the records before it: grounded exactly when its argument is
      not redacted and a usable earlier result holds a match; authored exactly when it is not redacted, no earlier
      result matches, and every usable one was held whole. */
  lemma {:induction false} StateExactly(h: Host, records: seq<Record>, k: nat, j: nat)
    requires k < |records| && records[k].Call? && FirstProv(records, records[k].i).None?
    requires !Skipped(records, records[k].i)
    requires Guarded(records[k].args) && j < |Args(records[k].args)|
    ensures RowsAt(h, records, k).Some? && |RowsAt(h, records, k).value| == 1
    ensures var rows, leaf := RowsAt(h, records, k).value[0].rows, Args(records[k].args)[j];
      var redacted := RedactedAt(Args(records[k].args), leaf.path);
      var matched := MatchedBefore(h, records, k, leaf.value);
      && j < |rows| && rows[j].path == leaf.path
      && (rows[j].Grounded? <==> !redacted && matched)
      && (rows[j].Authored? <==> !redacted && !matched && forall m :: 0 <= m < k ==> !HeldInPart(records[m]))
      && (redacted ==> rows[j] == Unresolved(leaf.path, [RedactedArgument]))
  {
    var args := records[k].args;
    MatchedBeforeExactly(h, records, k, Args(args)[j].value);
    NoReasonsBefore(records, k);
    RowExactly(h, records[..k], args, j);
  }

  lemma RowExactly(h: Host, before: seq<Record>, args: Value, j: nat)
    requires Guarded(args) && j < |Args(args)|
    ensures RowAt(h, before, args, j).Some?
    ensures var row, leaf := RowAt(h, before, args, j).value, Args(args)[j];
      var redacted := RedactedAt(Args(args), leaf.path);
      var matched := exists l :: l in SourceLeaves(SourcesIn(before)) && Matches(h, l, leaf.value);
      && row.path == leaf.path && (row.Grounded? <==> !redacted && matched)
      && (row.Authored? <==> !redacted && !matched && ReasonsAfter(before) == [])
      && (redacted ==> row == Unresolved(leaf.path, [RedactedArgument]))
  {
    RowIs(h, before, args, j);
    FindExactly(h, SourceLeaves(SourcesIn(before)), Args(args)[j].value);
    if RedactedAt(Args(args), Args(args)[j].path) { RedactedIsUnresolved(h, before, args, j); }
  }

  /** After a result held in part nothing is called authored. */
  lemma AuthoredIsEarned(h: Host, before: seq<Record>, args: Value, m: nat, j: nat)
    requires Guarded(args) && j < |Args(args)|
    requires m < |before| && HeldInPart(before[m])
    ensures RowAt(h, before, args, j).Some? && !RowAt(h, before, args, j).value.Authored?
  {
    NoReasons(before);
    RowExactly(h, before, args, j);
  }

  lemma {:induction false} NoteTexts(records: seq<Record>)
    ensures NotesIn(records) != [] ==> Joined(NotesIn(records)) != []
  {
    if records != [] {
      NoteTexts(records[1..]);
      assert NoteOf(records[0]) != [] ==> NotesIn(records)[0] == NoteOf(records[0])[0] != [];
      assert NoteOf(records[0]) == [] ==> NotesIn(records) == NotesIn(records[1..]);
    }
  }

  function Total(c: Counts): nat { c.grounded + c.authored + c.unresolved }

  /** Every argument leaf is counted in exactly one state. */
  lemma {:induction false} TallyTotal(rows: seq<Resolution>)
    ensures Total(Tally(rows)) == |rows|
  {
    if rows != [] { TallyTotal(rows[..|rows| - 1]); }
  }

  /** What did not come back as an answer is no source: a failed, denied or dry-run result, or any record that is
      not a result, changes no row wherever it stands. */
  lemma UnusableChangesNothing(h: Host, a: seq<Record>, rec: Record, b: seq<Record>, args: Value)
    requires rec.Result? ==> !rec.ok || rec.denied || rec.dryRun
    ensures Computed(h, a + [rec] + b, args) == Computed(h, a + b, args)
  {
    SourcesInAppend(a + [rec], b);
    SourcesInAppend(a, [rec]);
    SourcesInAppend(a, b);
    NotesInAppend(a + [rec], b);
    NotesInAppend(a, [rec]);
    NotesInAppend(a, b);
    assert SourcesIn([rec]) == SourceOf(rec) + SourcesIn([]) == [];
    assert NotesIn([rec]) == NoteOf(rec) + NotesIn([]) == [];
    assert SourcesIn(a) + [] == SourcesIn(a) && NotesIn(a) + [] == NotesIn(a);
  }

  /** A call is in the report unless the first result under its number says that it was denied or dry. */
  lemma ReportedExactly(h: Host, records: seq<Record>, k: nat)
    requires k < |records| && records[k].Call? && RowsAt(h, records, k).Some?
    ensures RowsAt(h, records, k).value == [] <==>
      exists j :: 0 <= j < |records| && FirstOf(records, records[k].i, j) && (records[j].denied || records[j].dryRun)
  {
    FirstResultAt(records, records[k].i);
  }

  ghost predicate FirstOf(records: seq<Record>, i: nat, j: nat)
    requires j < |records|
  {
    records[j].Result? && records[j].i == i && forall m :: 0 <= m < j ==> !(records[m].Result? && records[m].i == i)
  }

  lemma {:induction false} FirstResultAt(records: seq<Record>, i: nat)
    ensures FirstResult(records, i).Some? <==> exists j :: 0 <= j < |records| && FirstOf(records, i, j)
    ensures forall j :: 0 <= j < |records| && FirstOf(records, i, j) ==> FirstResult(records, i) == Some(records[j])
  {
    if records != [] {
      var rest := records[1..];
      FirstResultAt(rest, i);
      if records[0].Result? && records[0].i == i {
        assert FirstOf(records, i, 0);
      } else {
        forall j | 0 <= j < |rest| ensures FirstOf(rest, i, j) <==> FirstOf(records, i, j + 1) {
          assert forall m :: 0 < m <= j ==> records[m] == rest[m - 1];
          assert forall m :: 0 <= m < j ==> rest[m] == records[m + 1];
        }
        forall j | 0 <= j < |records| && FirstOf(records, i, j) ensures FirstOf(rest, i, j - 1) {}
      }
    }
  }
}
