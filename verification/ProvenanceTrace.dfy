/** Argument provenance over a recorded trace: every call is resolved against the results that
    came back before it, with redacted values neither matched nor taken for absent. */
module ProvenanceTrace {
  import opened Wrappers
  import opened Sequences
  import opened CanonicalJson
  import opened CanonicalPrint
  import opened Commitments
  import opened Provenance
  import Paths

  // ---- Redaction ----

  const MARKER: Units := [171, 114, 101, 100, 97, 99, 116, 101, 100]

  predicate OccursAt(s: Units, part: Units, i: nat) { i + |part| <= |s| && s[i..i + |part|] == part }

  predicate Includes(s: Units, part: Units) { exists i :: 0 <= i <= |s| && OccursAt(s, part, i) }

  predicate IsRedacted(v: Scalar) { v.Text? && Includes(v.units, MARKER) }

  /** The marker is a left guillemet (U+00AB) and the word: whatever holds it is redacted, and nothing else. */
  lemma RedactedExactly(s: Units)
    ensures IsRedacted(Text(s)) <==> exists i :: 0 <= i <= |s| && OccursAt(s, [0xAB] + Ascii("redacted"), i)
  {
    assert MARKER == [0xAB] + Ascii("redacted");
  }

  /** Redacted leaves become null; a `__proto__` member is lost in the rebuild. */
  function Mask(v: Value): Value
    decreases v, 1
  {
    match v
    case Str(s) => if Includes(s, MARKER) then Null else v
    case Arr(items) => Arr(MaskItems(items))
    case Obj(ms) => Obj(MaskMembers(ms))
    case _ => v
  }

  function MaskItems(items: seq<Value>): seq<Value>
    decreases items, 0
  {
    if items == [] then [] else [Mask(items[0])] + MaskItems(items[1..])
  }

  function MaskMembers(ms: seq<Entry>): seq<Entry>
    decreases ms, 0
  {
    if ms == [] then [] else MaskMember(ms[0]) + MaskMembers(ms[1..])
  }

  function MaskMember(e: Entry): seq<Entry>
    decreases e, 0
  {
    if e.key == PROTO then [] else [Entry(e.key, Mask(e.value))]
  }

  /** Was anything masked? */
  predicate Masked(v: Value) {
    match v
    case Str(s) => Includes(s, MARKER)
    case Arr(items) => exists i :: 0 <= i < |items| && Masked(items[i])
    case Obj(ms) => exists i :: 0 <= i < |ms| && Masked(ms[i].value)
    case _ => false
  }

  /** `maskRedacted` as it runs: one walk that rebuilds the value and raises a flag. */
  method MaskRedacted(v: Value) returns (r: Value, masked: bool)
    ensures r == Mask(v) && masked == Masked(v)
    decreases v, 1
  {
    match v
    case Str(s) =>
      masked := Includes(s, MARKER);
      r := if masked then Null else v;
    case Arr(items) =>
      var out, hit := MaskRedactedItems(items);
      r, masked := Arr(out), hit;
    case Obj(ms) =>
      var out, hit := MaskRedactedMembers(ms);
      r, masked := Obj(out), hit;
    case _ => r, masked := v, false;
  }

  method MaskRedactedItems(items: seq<Value>) returns (out: seq<Value>, masked: bool)
    ensures out == MaskItems(items) && masked == exists j :: 0 <= j < |items| && Masked(items[j])
    decreases items, 0
  {
    out, masked := [], false;
    for i := 0 to |items|
      invariant MaskItems(items) == out + MaskItems(items[i..])
      invariant masked == exists j :: 0 <= j < i && Masked(items[j])
    {
      var item, hit := MaskRedacted(items[i]);
      assert items[i..][0] == items[i] && items[i..][1..] == items[i + 1..];
      out, masked := out + [item], masked || hit;
    }
  }

  method MaskRedactedMembers(ms: seq<Entry>) returns (out: seq<Entry>, masked: bool)
    ensures out == MaskMembers(ms) && masked == exists j :: 0 <= j < |ms| && Masked(ms[j].value)
    decreases ms, 0
  {
    out, masked := [], false;
    for i := 0 to |ms|
      invariant MaskMembers(ms) == out + MaskMembers(ms[i..])
      invariant masked == exists j :: 0 <= j < i && Masked(ms[j].value)
    {
      var value, hit := MaskRedacted(ms[i].value);
      assert ms[i..][0] == ms[i] && ms[i..][1..] == ms[i + 1..];
      Assoc(out, MaskMember(ms[i]), MaskMembers(ms[i + 1..]));
      if ms[i].key != PROTO { out := out + [Entry(ms[i].key, value)]; } else { assert out + MaskMember(ms[i]) == out; }
      masked := masked || hit;
    }
  }

  function UnredactedOf(l: Leaf): seq<Leaf> { if IsRedacted(l.value) then [] else [l] }

  function Unredacted(ls: seq<Leaf>): seq<Leaf> {
    if ls == [] then [] else UnredactedOf(ls[0]) + Unredacted(ls[1..])
  }

  lemma {:induction false} UnredactedAppend(a: seq<Leaf>, b: seq<Leaf>)
    ensures Unredacted(a + b) == Unredacted(a) + Unredacted(b)
  {
    if a == [] {
      assert a + b == b;
    } else {
      UnredactedAppend(a[1..], b);
      assert (a + b)[0] == a[0] && (a + b)[1..] == a[1..] + b;
      Assoc(UnredactedOf(a[0]), Unredacted(a[1..]), Unredacted(b));
    }
  }

  /** Masking removes the redacted leaves and nothing else: the paths and the order of the
      others are kept, array indices included. */
  lemma {:induction false} MaskKeepsLeaves(v: Value, path: Units)
    requires Guarded(v)
    ensures Walk(Mask(v), path) == Unredacted(Walk(v, path))
    decreases v, 1
  {
    match v
    case Arr(items) => MaskKeepsItems(items, path, 0);
    case Obj(ms) => MaskKeepsMembers(ms, path);
    case _ =>
  }

  lemma {:induction false} MaskKeepsItems(items: seq<Value>, path: Units, i: nat)
    requires Guarded(Arr(items))
    ensures WalkItems(MaskItems(items), path, i) == Unredacted(WalkItems(items, path, i))
    decreases items, 0
  {
    if items != [] {
      MaskKeepsLeaves(items[0], Element(path, i));
      MaskKeepsItems(items[1..], path, i + 1);
      UnredactedAppend(Walk(items[0], Element(path, i)), WalkItems(items[1..], path, i + 1));
      assert MaskItems(items)[1..] == MaskItems(items[1..]);
    }
  }

  lemma {:induction false} MaskKeepsMembers(ms: seq<Entry>, path: Units)
    requires Guarded(Obj(ms))
    ensures WalkMembers(MaskMembers(ms), path) == Unredacted(WalkMembers(ms, path))
    decreases ms, 0
  {
    if ms != [] {
      MaskKeepsLeaves(ms[0].value, Child(path, ms[0].key));
      MaskKeepsMembers(ms[1..], path);
      UnredactedAppend(Walk(ms[0].value, Child(path, ms[0].key)), WalkMembers(ms[1..], path));
      var kept := Entry(ms[0].key, Mask(ms[0].value));
      assert ms[0].key != PROTO && MaskMembers(ms) == [kept] + MaskMembers(ms[1..]);
      assert MaskMembers(ms)[0] == kept && MaskMembers(ms)[1..] == MaskMembers(ms[1..]);
    }
  }

  /** Whatever came in, the guard against `__proto__` passes after masking. */
  lemma {:induction false} MaskGuards(v: Value)
    ensures Guarded(Mask(v))
    decreases v, 1
  {
    match v
    case Arr(items) => MaskGuardsItems(items);
    case Obj(ms) => MaskGuardsMembers(ms);
    case _ =>
  }

  lemma {:induction false} MaskGuardsItems(items: seq<Value>)
    ensures Guarded(Arr(MaskItems(items)))
    decreases items, 0
  {
    if items != [] {
      MaskGuards(items[0]);
      MaskGuardsItems(items[1..]);
    }
  }

  lemma {:induction false} MaskGuardsMembers(ms: seq<Entry>)
    ensures Guarded(Obj(MaskMembers(ms)))
    decreases ms, 0
  {
    if ms != [] {
      MaskGuards(ms[0].value);
      MaskGuardsMembers(ms[1..]);
    }
  }

  /** So a body's `__proto__` member is neither indexed, nor refused, nor a gap, although the
      same body unmasked is refused. */
  lemma ProtoBodyVanishes(s: Units)
    requires !Includes(s, MARKER)
    ensures var body := Obj([Entry(PROTO, Str(s))]);
      && Leaves(body, Ascii("body")).None?
      && Leaves(Mask(body), Ascii("body")) == Some([]) && !Masked(body)
  {
    var body := Obj([Entry(PROTO, Str(s))]);
    assert body.members[0].key == PROTO;
    MaskGuards(body);
    assert MaskMembers(body.members) == [];
  }

  // ---- The trace ----

  datatype Truncated = Truncated(grounded: nat, authored: nat, unresolved: nat)

  /** A result's body is its addressable value, undefined if there is none; a `Prov` record's
      rows are resolutions already made. */
  datatype Record =
    | Call(i: nat, tool: Units, args: Value)
    | Result(i: nat, ok: bool, denied: bool, dryRun: bool, body: Value)
    | Prov(i: nat, rows: seq<Resolution>, truncated: Truncated)
    | Other

  predicate Usable(r: Record) { r.Result? && r.ok && !r.denied && !r.dryRun }

  function FirstResult(records: seq<Record>, i: nat): (r: Option<Record>)
    ensures r.Some? ==> r.value.Result? && r.value in records
  {
    if records == [] then None
    else if records[0].Result? && records[0].i == i then Some(records[0])
    else FirstResult(records[1..], i)
  }

  function FirstProv(records: seq<Record>, i: nat): (r: Option<Record>)
    ensures r.Some? ==> r.value.Prov? && r.value in records
  {
    if records == [] then None
    else if records[0].Prov? && records[0].i == i then Some(records[0])
    else FirstProv(records[1..], i)
  }

  function IdOf(i: nat): Units { [35] + Ascii(Paths.Decimal(i)) }

  function SourceOf(r: Record): seq<Source> { if Usable(r) then [Source(Response, IdOf(r.i), Mask(r.body))] else [] }

  function NoteOf(r: Record): seq<Units> {
    if Usable(r) && Masked(r.body) then [Ascii("redacted-values: ") + IdOf(r.i)] else []
  }

  function SourcesIn(records: seq<Record>): seq<Source> {
    if records == [] then [] else SourceOf(records[0]) + SourcesIn(records[1..])
  }

  function NotesIn(records: seq<Record>): seq<Units> {
    if records == [] then [] else NoteOf(records[0]) + NotesIn(records[1..])
  }

  function Joined(notes: seq<Units>): Units {
    if notes == [] then [] else notes[0] + (if |notes| == 1 then [] else [59, 32]) + Joined(notes[1..])
  }

  /** The value a path was last given; undefined-like None if it has none. */
  function LastAt(leaves: seq<Leaf>, path: Units): Option<Scalar> {
    if leaves == [] then None
    else if leaves[|leaves| - 1].path == path then Some(leaves[|leaves| - 1].value)
    else LastAt(leaves[..|leaves| - 1], path)
  }

  predicate RedactedAt(leaves: seq<Leaf>, path: Units) {
    LastAt(leaves, path).Some? && IsRedacted(LastAt(leaves, path).value)
  }

  function Veil(leaves: seq<Leaf>, r: Resolution): Resolution {
    if RedactedAt(leaves, r.path) then Unresolved(r.path, [RedactedArgument]) else r
  }

  /** The resolution of a call's arguments after these records; None when it throws. */
  function Computed(h: Host, before: seq<Record>, args: Value): Option<seq<Resolution>> {
    Traced(h, SourcesIn(before), NotesIn(before), args)
  }

  function Traced(h: Host, sources: seq<Source>, notes: seq<Units>, args: Value): Option<seq<Resolution>> {
    var rows := ResolveArgs(h, sources, Joined(notes), args);
    if rows.None? then None
    else
      var leaves := Walk(args, Ascii("args"));
      Some(seq(|rows.value|, j requires 0 <= j < |rows.value| => Veil(leaves, rows.value[j])))
  }

  datatype CallRows = CallRows(i: nat, tool: Units, rows: seq<Resolution>)

  predicate Skipped(records: seq<Record>, i: nat) {
    var outcome := FirstResult(records, i);
    outcome.Some? && !Usable(outcome.value) && (outcome.value.denied || outcome.value.dryRun)
  }

  /** What record k adds to the report: nothing unless it is a call that went out; the rows
      recorded for it if there are any. */
  function RowsAt(h: Host, records: seq<Record>, k: nat): Option<seq<CallRows>>
    requires k < |records|
  {
    var rec := records[k];
    if !rec.Call? || Skipped(records, rec.i) then Some([])
    else if FirstProv(records, rec.i).Some? then Some([CallRows(rec.i, rec.tool, FirstProv(records, rec.i).value.rows)])
    else
      var rows := Computed(h, records[..k], rec.args);
      if rows.None? then None else Some([CallRows(rec.i, rec.tool, rows.value)])
  }

  function Report(h: Host, records: seq<Record>, k: nat): Option<seq<CallRows>>
    requires k <= |records|
  {
    if k == 0 then Some([])
    else
      var before, here := Report(h, records, k - 1), RowsAt(h, records, k - 1);
      if before.None? || here.None? then None else Some(before.value + here.value)
  }

  datatype Counts = Counts(grounded: nat, authored: nat, unresolved: nat)

  function Tally(rows: seq<Resolution>): Counts {
    if rows == [] then Counts(0, 0, 0)
    else
      var c := Tally(rows[..|rows| - 1]);
      match rows[|rows| - 1]
      case Grounded(_, _, _) => c.(grounded := c.grounded + 1)
      case Authored(_) => c.(authored := c.authored + 1)
      case Unresolved(_, _) => c.(unresolved := c.unresolved + 1)
  }

  function Sum(a: Counts, b: Counts): Counts {
    Counts(a.grounded + b.grounded, a.authored + b.authored, a.unresolved + b.unresolved)
  }

  /** Recorded rows count with the rows that were truncated away. */
  function CountsAt(h: Host, records: seq<Record>, k: nat): Counts
    requires k < |records|
  {
    var rows := RowsAt(h, records, k);
    if rows.None? || rows.value == [] then Counts(0, 0, 0)
    else
      var prov := FirstProv(records, records[k].i);
      var more := if prov.None? then Truncated(0, 0, 0) else prov.value.truncated;
      Sum(Tally(rows.value[0].rows), Counts(more.grounded, more.authored, more.unresolved))
  }

  function CountsTo(h: Host, records: seq<Record>, k: nat): Counts
    requires k <= |records|
  {
    if k == 0 then Counts(0, 0, 0) else Sum(CountsTo(h, records, k - 1), CountsAt(h, records, k - 1))
  }

  lemma {:induction false} FirstSnoc(records: seq<Record>, rec: Record, i: nat)
    ensures FirstResult(records + [rec], i) ==
      Or(FirstResult(records, i), if rec.Result? && rec.i == i then Some(rec) else None)
    ensures FirstProv(records + [rec], i) ==
      Or(FirstProv(records, i), if rec.Prov? && rec.i == i then Some(rec) else None)
  {
    if records == [] {
      assert ([] + [rec])[1..] == [];
    } else {
      FirstSnoc(records[1..], rec, i);
      assert (records + [rec])[1..] == records[1..] + [rec];
    }
  }

  function At(m: map<nat, Record>, i: nat): Option<Record> { if i in m then Some(m[i]) else None }

  method FirstRecords(records: seq<Record>) returns (results: map<nat, Record>, provs: map<nat, Record>)
    ensures forall i :: At(results, i) == FirstResult(records, i) && At(provs, i) == FirstProv(records, i)
  {
    results, provs := map[], map[];
    for k := 0 to |records|
      invariant forall i :: At(results, i) == FirstResult(records[..k], i) && At(provs, i) == FirstProv(records[..k], i)
    {
      var rec := records[k];
      ghost var results0, provs0 := results, provs;
      if rec.Result? && rec.i !in results { results := results[rec.i := rec]; }
      if rec.Prov? && rec.i !in provs { provs := provs[rec.i := rec]; }
      forall i
        ensures At(results, i) == FirstResult(records[..k + 1], i) && At(provs, i) == FirstProv(records[..k + 1], i)
      {
        assert records[..k + 1] == records[..k] + [rec];
        FirstSnoc(records[..k], rec, i);
        assert At(results0, i) == FirstResult(records[..k], i) && At(provs0, i) == FirstProv(records[..k], i);
      }
    }
    assert records[..|records|] == records;
  }

  lemma {:induction false} SourcesInAppend(a: seq<Record>, b: seq<Record>)
    ensures SourcesIn(a + b) == SourcesIn(a) + SourcesIn(b)
  {
    if a == [] {
      assert a + b == b;
    } else {
      SourcesInAppend(a[1..], b);
      assert (a + b)[0] == a[0] && (a + b)[1..] == a[1..] + b;
      Assoc(SourceOf(a[0]), SourcesIn(a[1..]), SourcesIn(b));
    }
  }

  lemma {:induction false} NotesInAppend(a: seq<Record>, b: seq<Record>)
    ensures NotesIn(a + b) == NotesIn(a) + NotesIn(b)
  {
    if a == [] {
      assert a + b == b;
    } else {
      NotesInAppend(a[1..], b);
      assert (a + b)[0] == a[0] && (a + b)[1..] == a[1..] + b;
      Assoc(NoteOf(a[0]), NotesIn(a[1..]), NotesIn(b));
    }
  }

  lemma TraceSnoc(records: seq<Record>, k: nat)
    requires k < |records|
    ensures SourcesIn(records[..k + 1]) == SourcesIn(records[..k]) + SourceOf(records[k])
    ensures NotesIn(records[..k + 1]) == NotesIn(records[..k]) + NoteOf(records[k])
  {
    assert records[..k + 1] == records[..k] + [records[k]];
    SourcesInAppend(records[..k], [records[k]]);
    NotesInAppend(records[..k], [records[k]]);
  }

  /** One call of the loop: its rows, and what they add to the counts. */
  method CallRowsAt(h: Host, ghost records: seq<Record>, k: nat, rec: Record, outcome: Option<Record>,
                    recorded: Option<Record>,
                    sources: seq<Source>, notes: seq<Units>)
    returns (rows: Option<seq<CallRows>>, add: Counts)
    requires k < |records| && rec == records[k] && rec.Call?
    requires outcome == FirstResult(records, rec.i) && recorded == FirstProv(records, rec.i)
    requires sources == SourcesIn(records[..k]) && notes == NotesIn(records[..k])
    ensures rows == RowsAt(h, records, k) && (rows.Some? ==> add == CountsAt(h, records, k))
  {
    if outcome.Some? && !Usable(outcome.value) && (outcome.value.denied || outcome.value.dryRun) {
      return Some([]), Counts(0, 0, 0);
    }
    if recorded.Some? {
      var more := recorded.value.truncated;
      add := Sum(Tally(recorded.value.rows), Counts(more.grounded, more.authored, more.unresolved));
      return Some([CallRows(rec.i, rec.tool, recorded.value.rows)]), add;
    }
    var found := ResolveTraced(h, sources, notes, rec.args);
    if found.None? { return None, Counts(0, 0, 0); }
    return Some([CallRows(rec.i, rec.tool, found.value)]), Tally(found.value);
  }

  /** The loop's state after k records. */
  ghost predicate Progress(h: Host, records: seq<Record>, k: nat, sources: seq<Source>, notes: seq<Units>,
                           out: seq<CallRows>, counts: Counts) {
    && k <= |records|
    && sources == SourcesIn(records[..k]) && notes == NotesIn(records[..k])
    && Report(h, records, k) == Some(out) && counts == CountsTo(h, records, k)
  }

  lemma ProgressStep(h: Host, records: seq<Record>, k: nat, sources: seq<Source>, notes: seq<Units>, out: seq<CallRows>,
                     counts: Counts)
    requires k < |records| && Progress(h, records, k, sources, notes, out, counts) && RowsAt(h, records, k).Some?
    ensures Progress(h, records, k + 1, sources + SourceOf(records[k]), notes + NoteOf(records[k]),
                     out + RowsAt(h, records, k).value, Sum(counts, CountsAt(h, records, k)))
  {
    TraceSnoc(records, k);
  }

  method AddSource(rec: Record, sources: seq<Source>, notes: seq<Units>)
    returns (sources': seq<Source>, notes': seq<Units>)
    ensures sources' == sources + SourceOf(rec) && notes' == notes + NoteOf(rec)
  {
    sources', notes' := sources, notes;
    if Usable(rec) {
      var value, masked := MaskRedacted(rec.body);
      if masked { notes' := notes' + [Ascii("redacted-values: ") + IdOf(rec.i)]; }
      sources' := sources' + [Source(Response, IdOf(rec.i), value)];
    }
  }

  /** The loop of `analyzeTrace`; None when it throws. */
  method AnalyzeTrace(h: Host, records: seq<Record>) returns (calls: Option<seq<CallRows>>, counts: Counts)
    ensures calls == Report(h, records, |records|)
    ensures calls.Some? ==> counts == CountsTo(h, records, |records|)
  {
    var results, provs := FirstRecords(records);
    var sources: seq<Source>, notes: seq<Units>, out: seq<CallRows> := [], [], [];
    counts := Counts(0, 0, 0);
    for k := 0 to |records|
      invariant Progress(h, records, k, sources, notes, out, counts)
    {
      var rec := records[k];
      var rows, add := Some([]), Counts(0, 0, 0);
      if rec.Call? {
        rows, add := CallRowsAt(h, records, k, rec, At(results, rec.i), At(provs, rec.i), sources, notes);
        if rows.None? {
          ReportStops(h, records, k, |records|);
          return None, counts;
        }
      }
      ProgressStep(h, records, k, sources, notes, out, counts);
      counts, out := Sum(counts, add), out + rows.value;
      sources, notes := AddSource(rec, sources, notes);
    }
    calls := Some(out);
  }

  method ResolveTraced(h: Host, sources: seq<Source>, notes: seq<Units>, args: Value)
    returns (r: Option<seq<Resolution>>)
    ensures r == Traced(h, sources, notes, args)
  {
    var rows := ResolveArgs(h, sources, Joined(notes), args);
    if rows.None? { return None; }
    var leaves := Walk(args, Ascii("args"));
    r := Some(seq(|rows.value|, j requires 0 <= j < |rows.value| => Veil(leaves, rows.value[j])));
  }

  /** Once a call throws the report is lost. */
  lemma {:induction false} ReportStops(h: Host, records: seq<Record>, k: nat, n: nat)
    requires k < n <= |records| && RowsAt(h, records, k).None?
    ensures Report(h, records, n).None?
  {
    if k < n - 1 { ReportStops(h, records, k, n - 1); }
  }
}
