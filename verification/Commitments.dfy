/** What the approval hash, the idempotency key, the artifact digest and the keyed
    commitments are computed over, and why no two of them can be confused. */
module Commitments {
  import opened Wrappers
  import opened Sequences
  import opened CanonicalJson
  import opened CanonicalPrint

  // ---- Objects with named members ----

  function Ascii(s: string): (r: Units)
    ensures |r| == |s| && forall i :: 0 <= i < |s| ==> r[i] == s[i] as nat
  {
    seq(|s|, i requires 0 <= i < |s| => s[i] as nat)
  }

  lemma AsciiInjective(s: string, t: string)
    ensures Ascii(s) == Ascii(t) <==> s == t
  {
    if Ascii(s) == Ascii(t) {
      assert |s| == |Ascii(s)| == |Ascii(t)| == |t|;
      forall i | 0 <= i < |s| ensures s[i] == t[i] { assert Ascii(s)[i] == Ascii(t)[i]; }
    }
  }

  predicate IsName(s: string) { s != "__proto__" && forall i :: 0 <= i < |s| ==> s[i] as nat < 0x80 }

  predicate Names(names: seq<string>) { Distinct(names) && forall i :: 0 <= i < |names| ==> IsName(names[i]) }

  /** An object literal; a conditional spread that adds nothing is an undefined value. */
  function Record(names: seq<string>, values: seq<Value>): Value
    requires |names| == |values|
  {
    Obj(seq(|names|, i requires 0 <= i < |names| => Entry(Ascii(names[i]), values[i])))
  }

  lemma RecordAt(names: seq<string>, values: seq<Value>, i: nat)
    requires |names| == |values| && Names(names) && i < |names|
    ensures Lookup(Record(names, values).members, Ascii(names[i])) == Some(values[i])
    ensures Carries(Record(names, values).members, Ascii(names[i])) <==> !values[i].Undefined?
  {
    var ms := Record(names, values).members;
    RecordDistinct(names, values);
    LookupAt(ms, i);
    assert ms[i].key == Ascii(names[i]);
    assert PROTO == Ascii("__proto__");
    AsciiInjective(names[i], "__proto__");
  }

  lemma RecordDistinct(names: seq<string>, values: seq<Value>)
    requires |names| == |values| && Names(names)
    ensures DistinctKeys(Record(names, values).members)
  {
    var ms := Record(names, values).members;
    forall i, j | 0 <= i < j < |ms| ensures ms[i].key != ms[j].key {
      AsciiInjective(names[i], names[j]);
    }
  }

  lemma RecordProper(names: seq<string>, values: seq<Value>)
    requires |names| == |values| && Names(names) && forall i :: 0 <= i < |values| ==> Proper(values[i])
    ensures Proper(Record(names, values))
  {
    RecordDistinct(names, values);
  }

  ghost predicate AllSame(xs: seq<Value>, ys: seq<Value>) {
    |xs| == |ys| && forall i :: 0 <= i < |xs| ==> Same(xs[i], ys[i])
  }

  lemma RecordsMeet(names: seq<string>, xs: seq<Value>, ys: seq<Value>, i: nat)
    requires |names| == |xs| == |ys| && Names(names) && i < |xs|
    ensures var p, q := Record(names, xs).members, Record(names, ys).members;
      && Lookup(q, p[i].key) == Some(ys[i]) && p[i] == Entry(q[i].key, xs[i])
      && (Carries(q, p[i].key) <==> !ys[i].Undefined?) && (Carried(p[i]) <==> !xs[i].Undefined?)
  {
    RecordAt(names, xs, i);
    RecordAt(names, ys, i);
  }

  lemma RecordsSameAt(names: seq<string>, xs: seq<Value>, ys: seq<Value>, i: nat)
    requires |names| == |xs| == |ys| && Names(names) && i < |xs| && Same(Record(names, xs), Record(names, ys))
    ensures Same(xs[i], ys[i])
  {
    var p, q := Record(names, xs).members, Record(names, ys).members;
    RecordsMeet(names, xs, ys, i);
    RecordsMeet(names, ys, xs, i);
    assert Carried(p[i]) ==> Carries(q, p[i].key) && Same(p[i].value, Lookup(q, p[i].key).value);
    assert Carried(q[i]) ==> Carries(p, q[i].key);
  }

  /** Objects built from the same names are the same exactly when their values are. */
  lemma RecordsSame(names: seq<string>, xs: seq<Value>, ys: seq<Value>)
    requires |names| == |xs| == |ys| && Names(names)
    ensures Same(Record(names, xs), Record(names, ys)) <==> AllSame(xs, ys)
  {
    var p, q := Record(names, xs).members, Record(names, ys).members;
    if Same(Record(names, xs), Record(names, ys)) {
      forall i | 0 <= i < |xs| ensures Same(xs[i], ys[i]) { RecordsSameAt(names, xs, ys, i); }
    } else if AllSame(xs, ys) {
      forall i | 0 <= i < |p| && Carried(p[i])
        ensures Carries(q, p[i].key) && Same(p[i].value, Lookup(q, p[i].key).value)
      {
        assert Same(xs[i], ys[i]);
        RecordsMeet(names, xs, ys, i);
      }
      forall i | 0 <= i < |q| && Carried(q[i]) ensures Carries(p, q[i].key) {
        assert Same(xs[i], ys[i]);
        RecordsMeet(names, ys, xs, i);
      }
    }
  }

  /** A defined member the other object never has tells two objects apart. */
  lemma RecordsDiffer(names: seq<string>, xs: seq<Value>, others: seq<string>, ys: seq<Value>, i: nat)
    requires |names| == |xs| && |others| == |ys| && Names(names) && Names(others)
    requires i < |names| && !xs[i].Undefined? && names[i] !in others
    ensures !Same(Record(names, xs), Record(others, ys)) && !Same(Record(others, ys), Record(names, xs))
  {
    var p, q := Record(names, xs).members, Record(others, ys).members;
    RecordAt(names, xs, i);
    assert p[i].key == Ascii(names[i]) && Carried(p[i]);
    if Carries(q, p[i].key) {
      var j :| 0 <= j < |q| && q[j].key == p[i].key;
      AsciiInjective(names[i], others[j]);
    }
  }

  // ---- Scalars and projections ----

  datatype Scalar = Text(units: Units) | Number(printed: Units) | Flag(on: bool)

  predicate ProperScalar(v: Scalar) {
    match v
    case Text(s) => IsUnits(s)
    case Number(t) => IsNumberText(t)
    case Flag(_) => true
  }

  function TagScalar(v: Scalar): Units {
    match v
    case Text(s) => [115, 58] + s
    case Number(t) => [110, 58] + t
    case Flag(on) => [98, 58] + (if on then [116, 114, 117, 101] else [102, 97, 108, 115, 101])
  }

  /** `1`, `"1"` and `true` have different tags, and no string forges another's. */
  lemma TagInjective(a: Scalar, b: Scalar)
    ensures TagScalar(a) == TagScalar(b) <==> a == b
  {
    var p, q := TagScalar(a), TagScalar(b);
    if p == q {
      assert p[0] == q[0] && p[2..] == q[2..];
      match a
      case Text(s) => assert p[2..] == s && q[2..] == b.units;
      case Number(t) => assert p[2..] == t && q[2..] == b.printed;
      case Flag(on) => assert |p| == (if on then 6 else 7);
    }
  }

  datatype Field = Field(name: Units, value: Scalar)

  predicate ProperFields(fs: seq<Field>) {
    && (forall i, j :: 0 <= i < j < |fs| ==> fs[i].name != fs[j].name)
    && (forall i :: 0 <= i < |fs| ==> IsUnits(fs[i].name) && ProperScalar(fs[i].value))
  }

  predicate NoProtoField(fs: seq<Field>) { forall i :: 0 <= i < |fs| ==> fs[i].name != PROTO }

  function Tagged(fs: seq<Field>): Value {
    Obj(seq(|fs|, i requires 0 <= i < |fs| => Entry(fs[i].name, Str(TagScalar(fs[i].value)))))
  }

  ghost predicate SameFields(fs: seq<Field>, gs: seq<Field>) { forall f :: f in fs <==> f in gs }

  lemma TaggedProper(fs: seq<Field>)
    requires ProperFields(fs)
    ensures Proper(Tagged(fs))
  {
  }

  /** A field is found in the tagged object with its own tag, and only there. */
  lemma TaggedHas(fs: seq<Field>, f: Field)
    requires ProperFields(fs) && NoProtoField(fs)
    ensures f in fs <==>
      Carries(Tagged(fs).members, f.name) && Lookup(Tagged(fs).members, f.name) == Some(Str(TagScalar(f.value)))
  {
    var ms := Tagged(fs).members;
    if f in fs {
      var i :| 0 <= i < |fs| && fs[i] == f;
      LookupAt(ms, i);
      assert ms[i].key == f.name;
    }
    if Lookup(ms, f.name) == Some(Str(TagScalar(f.value))) {
      var i :| 0 <= i < |ms| && ms[i] == Entry(f.name, Str(TagScalar(f.value)));
      TagInjective(fs[i].value, f.value);
      assert fs[i] == f;
    }
  }

  lemma FieldSame(fs: seq<Field>, gs: seq<Field>)
    requires ProperFields(fs) && ProperFields(gs) && NoProtoField(fs) && NoProtoField(gs)
    requires Same(Tagged(fs), Tagged(gs))
    ensures SameFields(fs, gs)
  {
    var p, q := Tagged(fs).members, Tagged(gs).members;
    forall i | 0 <= i < |fs| ensures fs[i] in gs {
      assert Carried(p[i]) && Carries(q, p[i].key) && Same(p[i].value, Lookup(q, p[i].key).value);
      TaggedHas(gs, fs[i]);
    }
    forall j | 0 <= j < |gs| ensures gs[j] in fs {
      assert Carried(q[j]) && Carries(p, q[j].key);
      var r := Lookup(p, q[j].key);
      var i :| 0 <= i < |p| && p[i] == Entry(q[j].key, r.value);
      assert Carried(p[i]) && Carries(q, p[i].key) && Same(p[i].value, Lookup(q, p[i].key).value);
      TaggedHas(gs, gs[j]);
      TagInjective(fs[i].value, gs[j].value);
      assert fs[i] == gs[j];
    }
  }

  /** Tagged projections are the same exactly when they hold the same fields with equal values and types. */
  lemma FieldsExactly(fs: seq<Field>, gs: seq<Field>)
    requires ProperFields(fs) && ProperFields(gs) && NoProtoField(fs) && NoProtoField(gs)
    ensures Same(Tagged(fs), Tagged(gs)) <==> SameFields(fs, gs)
  {
    var p, q := Tagged(fs).members, Tagged(gs).members;
    if SameFields(fs, gs) {
      forall i | 0 <= i < |p| ensures Carries(q, p[i].key) && Same(p[i].value, Lookup(q, p[i].key).value) {
        assert fs[i] in gs;
        TaggedHas(gs, fs[i]);
      }
      forall j | 0 <= j < |q| ensures Carries(p, q[j].key) {
        assert gs[j] in fs;
        TaggedHas(fs, gs[j]);
      }
    }
    if Same(Tagged(fs), Tagged(gs)) { FieldSame(fs, gs); }
  }

  // ---- The seven inputs ----

  datatype Attest = Attest(args: Value, deferral: Option<Units>, projection: Option<seq<Units>>, tool: Units)

  datatype Expect = Expect(at: Units, keyId: Units, pre: Units,
                           expiresAt: Option<Units>, fields: Value, probeArgs: Option<Units>)

  /** What is being committed to; an undefined `fields` means it is absent. */
  datatype Commitment =
    | Approval(tool: Units, args: Value, attest: Option<Attest>, binding: Option<Expect>, emit: Option<seq<Units>>)
    | Idempotency(tool: Units, server: Option<Units>, args: Value)
    | Artifact(tool: Units, projected: seq<Field>)
    | Projection(probe: Units, projected: seq<Field>)
    | ProbeField(probe: Units, field: Units, value: Scalar)
    | ProbeArgs(probe: Units, args: Value)
    | ArtifactField(tool: Units, field: Units, value: Scalar)

  const ATTEST := ["args", "defer", "projection", "tool"]
  const EXPECT := ["at", "expiresAt", "fields", "keyId", "pre", "probeArgs"]

  function NamesOf(c: Commitment): seq<string> {
    match c
    case Approval(_, _, _, _, _) => ["args", "attest", "emit", "expect", "tool"]
    case Idempotency(_, _, _) => ["args", "server", "tool"]
    case Artifact(_, _) => ["artifact", "tool", "v"]
    case Projection(_, _) => ["probe", "projection", "v"]
    case ProbeField(_, _, _) => ["field", "probe", "v", "value"]
    case ProbeArgs(_, _) => ["args", "probe", "v"]
    case ArtifactField(_, _, _) => ["artifact", "field", "tool", "v", "value"]
  }

  function Optional(s: Option<Units>): Value { if s.None? then Undefined else Str(s.value) }

  function Strings(ss: seq<Units>): Value { Arr(seq(|ss|, i requires 0 <= i < |ss| => Str(ss[i]))) }

  function AttestValue(a: Attest): Value {
    Record(ATTEST,
      [a.args, Optional(a.deferral), if a.projection.None? then Null else Strings(a.projection.value), Str(a.tool)])
  }

  function ExpectParts(e: Expect): seq<Value> {
    [Str(e.at), Optional(e.expiresAt), e.fields, Str(e.keyId), Str(e.pre), Optional(e.probeArgs)]
  }

  function ExpectValue(e: Expect): Value {
    Record(EXPECT, ExpectParts(e))
  }

  function EmitValue(projection: seq<Units>): Value { Record(["projection"], [Strings(projection)]) }

  /** What is not declared is undefined. */
  function AttestSlot(a: Option<Attest>): Value { if a.None? then Undefined else AttestValue(a.value) }

  function ExpectSlot(e: Option<Expect>): Value { if e.None? then Undefined else ExpectValue(e.value) }

  function EmitSlot(projection: Option<seq<Units>>): Value {
    if projection.None? then Undefined else EmitValue(projection.value)
  }

  const ONE := Num([49])

  function ValuesOf(c: Commitment): (r: seq<Value>)
    ensures |r| == |NamesOf(c)|
  {
    match c
    case Approval(tool, args, attest, binding, emit) =>
      [args,
       AttestSlot(attest),
       EmitSlot(emit),
       ExpectSlot(binding),
       Str(tool)]
    case Idempotency(tool, server, args) => [args, if server.None? then Null else Str(server.value), Str(tool)]
    case Artifact(tool, projected) => [Tagged(projected), Str(tool), ONE]
    case Projection(probe, projected) => [Str(probe), Tagged(projected), ONE]
    case ProbeField(probe, field, value) => [Str(field), Str(probe), ONE, Str(TagScalar(value))]
    case ProbeArgs(probe, args) => [args, Str(probe), ONE]
    case ArtifactField(tool, field, value) => [Bool(true), Str(field), Str(tool), ONE, Str(TagScalar(value))]
  }

  function Input(c: Commitment): Value { Record(NamesOf(c), ValuesOf(c)) }

  // ---- What each function refuses ----

  predicate Space(u: nat) {
    9 <= u <= 13 || u == 32 || u == 0xA0 || u == 0x1680 || 0x2000 <= u <= 0x200A || u == 0x2028 || u == 0x2029
    || u == 0x202F || u == 0x205F || u == 0x3000 || u == 0xFEFF
  }

  predicate Blank(s: Units) { forall i :: 0 <= i < |s| ==> Space(s[i]) }

  predicate Accepted(c: Commitment) {
    match c
    case Approval(_, _, attest, binding, _) => binding.Some? ==> attest.Some?
    case Idempotency(_, _, _) => true
    case Artifact(tool, projected) => !Blank(tool) && NoProtoField(projected)
    case Projection(probe, projected) => !Blank(probe) && NoProtoField(projected)
    case ProbeField(probe, field, _) => !Blank(probe) && !Blank(field) && field != PROTO
    case ProbeArgs(probe, args) => !Blank(probe) && Guarded(args)
    case ArtifactField(tool, field, _) => !Blank(tool) && !Blank(field) && field != PROTO
  }

  // ---- When two commitments are to the same thing ----

  ghost predicate SameAttest(a: Attest, b: Attest) {
    Same(a.args, b.args) && a.deferral == b.deferral && a.projection == b.projection && a.tool == b.tool
  }

  ghost predicate SameExpect(a: Expect, b: Expect) {
    Same(a.fields, b.fields) && a.(fields := Undefined) == b.(fields := Undefined)
  }

  ghost predicate SameCommitment(c: Commitment, d: Commitment) {
    match c
    case Approval(tool, args, attest, binding, emit) =>
      && d.Approval? && tool == d.tool && Same(args, d.args) && emit == d.emit
      && attest.Some? == d.attest.Some? && (attest.Some? ==> SameAttest(attest.value, d.attest.value))
      && binding.Some? == d.binding.Some? && (binding.Some? ==> SameExpect(binding.value, d.binding.value))
    case Idempotency(tool, server, args) => d.Idempotency? && tool == d.tool && server == d.server && Same(args, d.args)
    case Artifact(tool, projected) => d.Artifact? && tool == d.tool && SameFields(projected, d.projected)
    case Projection(probe, projected) => d.Projection? && probe == d.probe && SameFields(projected, d.projected)
    case ProbeField(_, _, _) => c == d
    case ProbeArgs(probe, args) => d.ProbeArgs? && probe == d.probe && Same(args, d.args)
    case ArtifactField(_, _, _) => c == d
  }

  predicate ProperStrings(ss: seq<Units>) { forall i :: 0 <= i < |ss| ==> IsUnits(ss[i]) }

  predicate ProperOptional(s: Option<Units>) { s.Some? ==> IsUnits(s.value) }

  predicate ProperAttest(a: Attest) {
    Proper(a.args) && ProperOptional(a.deferral) && (a.projection.Some? ==> ProperStrings(a.projection.value)) &&
      IsUnits(a.tool)
  }

  predicate ProperExpect(e: Expect) {
    && IsUnits(e.at) && IsUnits(e.keyId) && IsUnits(e.pre)
    && ProperOptional(e.expiresAt) && Proper(e.fields) && ProperOptional(e.probeArgs)
  }

  /** Strings are strings and printed numbers are numbers. */
  predicate ProperCommitment(c: Commitment) {
    match c
    case Approval(tool, args, attest, binding, emit) =>
      && IsUnits(tool) && Proper(args) && (emit.Some? ==> ProperStrings(emit.value))
      && (attest.Some? ==> ProperAttest(attest.value)) && (binding.Some? ==> ProperExpect(binding.value))
    case Idempotency(tool, server, args) => IsUnits(tool) && ProperOptional(server) && Proper(args)
    case Artifact(tool, projected) => IsUnits(tool) && ProperFields(projected)
    case Projection(probe, projected) => IsUnits(probe) && ProperFields(projected)
    case ProbeField(probe, field, value) => IsUnits(probe) && IsUnits(field) && ProperScalar(value)
    case ProbeArgs(probe, args) => IsUnits(probe) && Proper(args)
    case ArtifactField(tool, field, value) => IsUnits(tool) && IsUnits(field) && ProperScalar(value)
  }

  lemma StringsExactly(xs: seq<Units>, ys: seq<Units>)
    ensures Same(Strings(xs), Strings(ys)) <==> xs == ys
  {
    var p, q := Strings(xs), Strings(ys);
    forall i | 0 <= i < |xs| && |xs| == |ys| ensures SameItem(p.items[i], q.items[i]) <==> xs[i] == ys[i] {
      assert p.items[i] == Str(xs[i]) && q.items[i] == Str(ys[i]);
      assert Same(p.items[i], q.items[i]) <==> p.items[i] == q.items[i];
    }
    assert |p.items| == |xs| && |q.items| == |ys|;
    if Same(p, q) { assert |xs| == |ys|; }
  }

  lemma FourSame(xs: seq<Value>, ys: seq<Value>)
    requires |xs| == |ys| == 4
    ensures AllSame(xs, ys) <==> (Same(xs[0], ys[0]) && Same(xs[1], ys[1]) && Same(xs[2], ys[2]) && Same(xs[3], ys[3]))
  {
  }

  lemma AttestNames()
    ensures Names(ATTEST)
  {
  }

  lemma AttestExactly(a: Attest, b: Attest)
    ensures Same(AttestValue(a), AttestValue(b)) <==> SameAttest(a, b)
  {
    var xs := [a.args, Optional(a.deferral), if a.projection.None? then Null else Strings(a.projection.value),
               Str(a.tool)];
    var ys := [b.args, Optional(b.deferral), if b.projection.None? then Null else Strings(b.projection.value),
               Str(b.tool)];
    AttestNames();
    RecordsSame(ATTEST, xs, ys);
    OptionalSame(a.deferral, b.deferral);
    if a.projection.Some? && b.projection.Some? { StringsExactly(a.projection.value, b.projection.value); }
    FourSame(xs, ys);
  }

  lemma SixSame(xs: seq<Value>, ys: seq<Value>)
    requires |xs| == |ys| == 6
    ensures AllSame(xs, ys) <==>
      (Same(xs[0], ys[0]) && Same(xs[1], ys[1]) && Same(xs[2], ys[2]) && Same(xs[3], ys[3]) &&
       Same(xs[4], ys[4]) && Same(xs[5], ys[5]))
  {
  }

  lemma OptionalSame(a: Option<Units>, b: Option<Units>)
    ensures Same(Optional(a), Optional(b)) <==> a == b
  {
  }

  lemma ExpectExactly(a: Expect, b: Expect)
    ensures Same(ExpectValue(a), ExpectValue(b)) <==> SameExpect(a, b)
  {
    ExpectNames();
    RecordsSame(EXPECT, ExpectParts(a), ExpectParts(b));
    PartsSame(a, b);
  }

  lemma PartsSame(a: Expect, b: Expect)
    ensures AllSame(ExpectParts(a), ExpectParts(b)) <==> SameExpect(a, b)
  {
    SixSame(ExpectParts(a), ExpectParts(b));
    OptionalSame(a.expiresAt, b.expiresAt);
    OptionalSame(a.probeArgs, b.probeArgs);
  }

  lemma EmitExactly(a: seq<Units>, b: seq<Units>)
    ensures Same(EmitValue(a), EmitValue(b)) <==> a == b
  {
    RecordsSame(["projection"], [Strings(a)], [Strings(b)]);
    StringsExactly(a, b);
    assert Same([Strings(a)][0], [Strings(b)][0]) <==> a == b;
  }

  lemma ExpectNames()
    ensures Names(EXPECT)
  {
  }

  lemma FiveNames(c: Commitment)
    requires c.Approval? || c.ArtifactField?
    ensures Names(NamesOf(c))
  {
  }

  lemma FourNames(c: Commitment)
    requires c.ProbeField?
    ensures Names(NamesOf(c))
  {
  }

  lemma ThreeNames(c: Commitment)
    requires !c.Approval? && !c.ArtifactField? && !c.ProbeField?
    ensures Names(NamesOf(c))
  {
  }

  lemma NamesGood(c: Commitment)
    ensures Names(NamesOf(c))
  {
    if c.Approval? || c.ArtifactField? {
      FiveNames(c);
    } else if c.ProbeField? {
      FourNames(c);
    } else {
      ThreeNames(c);
    }
  }

  function Rank(c: Commitment): nat {
    match c
    case Approval(_, _, _, _, _) => 0
    case ProbeArgs(_, _) => 1
    case Artifact(_, _) => 2
    case ProbeField(_, _, _) => 3
    case ArtifactField(_, _, _) => 4
    case Projection(_, _) => 5
    case Idempotency(_, _, _) => 6
  }

  /** A member that is always there in `c` and never in a kind ranked below. */
  function Mark(c: Commitment, d: Commitment): (i: nat)
    requires Rank(c) > Rank(d)
    ensures i < |NamesOf(c)| && !ValuesOf(c)[i].Undefined? && NamesOf(c)[i] !in NamesOf(d)
  {
    if c.Idempotency? || c.Projection? || d.Artifact? then 1 else if c.ProbeArgs? then 2 else 0
  }

  /** No two kinds of commitment have a common input, whatever the values. */
  lemma KindsDiffer(c: Commitment, d: Commitment)
    requires Rank(c) != Rank(d)
    ensures !Same(Input(c), Input(d))
  {
    NamesGood(c);
    NamesGood(d);
    if Rank(c) > Rank(d) {
      RecordsDiffer(NamesOf(c), ValuesOf(c), NamesOf(d), ValuesOf(d), Mark(c, d));
    } else {
      RecordsDiffer(NamesOf(d), ValuesOf(d), NamesOf(c), ValuesOf(c), Mark(d, c));
    }
  }

  lemma FiveSame(xs: seq<Value>, ys: seq<Value>)
    requires |xs| == |ys| == 5
    ensures AllSame(xs, ys) <==>
      (Same(xs[0], ys[0]) && Same(xs[1], ys[1]) && Same(xs[2], ys[2]) && Same(xs[3], ys[3]) && Same(xs[4], ys[4]))
  {
  }

  lemma MaybeAttest(a: Option<Attest>, b: Option<Attest>)
    ensures Same(AttestSlot(a), AttestSlot(b)) <==>
      a.Some? == b.Some? && (a.Some? ==> SameAttest(a.value, b.value))
  {
    if a.Some? && b.Some? { AttestExactly(a.value, b.value); }
  }

  lemma MaybeExpect(a: Option<Expect>, b: Option<Expect>)
    ensures Same(ExpectSlot(a), ExpectSlot(b)) <==>
      a.Some? == b.Some? && (a.Some? ==> SameExpect(a.value, b.value))
  {
    if a.Some? && b.Some? { ExpectExactly(a.value, b.value); }
  }

  lemma MaybeEmit(a: Option<seq<Units>>, b: Option<seq<Units>>)
    ensures Same(EmitSlot(a), EmitSlot(b)) <==> a == b
  {
    if a.Some? && b.Some? { EmitExactly(a.value, b.value); }
  }

  lemma ApprovalsExactly(c: Commitment, d: Commitment)
    requires c.Approval? && d.Approval?
    ensures AllSame(ValuesOf(c), ValuesOf(d)) <==> SameCommitment(c, d)
  {
    FiveSame(ValuesOf(c), ValuesOf(d));
    MaybeAttest(c.attest, d.attest);
    MaybeExpect(c.binding, d.binding);
    MaybeEmit(c.emit, d.emit);
  }

  lemma ThreeSame(xs: seq<Value>, ys: seq<Value>)
    requires |xs| == |ys| == 3
    ensures AllSame(xs, ys) <==> Same(xs[0], ys[0]) && Same(xs[1], ys[1]) && Same(xs[2], ys[2])
  {
  }

  lemma ProbeFieldsExactly(c: Commitment, d: Commitment)
    requires c.ProbeField? && d.ProbeField?
    ensures AllSame(ValuesOf(c), ValuesOf(d)) <==> c == d
  {
    TagInjective(c.value, d.value);
    FourSame(ValuesOf(c), ValuesOf(d));
  }

  lemma ArtifactFieldsExactly(c: Commitment, d: Commitment)
    requires c.ArtifactField? && d.ArtifactField?
    ensures AllSame(ValuesOf(c), ValuesOf(d)) <==> c == d
  {
    TagInjective(c.value, d.value);
    FiveSame(ValuesOf(c), ValuesOf(d));
  }

  lemma ProjectedExactly(c: Commitment, d: Commitment)
    requires Rank(c) == Rank(d) && (c.Artifact? || c.Projection?)
    requires Accepted(c) && Accepted(d) && ProperCommitment(c) && ProperCommitment(d)
    ensures AllSame(ValuesOf(c), ValuesOf(d)) <==> SameCommitment(c, d)
  {
    FieldsExactly(c.projected, d.projected);
    ThreeSame(ValuesOf(c), ValuesOf(d));
  }

  lemma OthersExactly(c: Commitment, d: Commitment)
    requires Rank(c) == Rank(d) != 0 && Accepted(c) && Accepted(d) && ProperCommitment(c) && ProperCommitment(d)
    ensures AllSame(ValuesOf(c), ValuesOf(d)) <==> SameCommitment(c, d)
  {
    if c.ProbeField? {
      ProbeFieldsExactly(c, d);
    } else if c.ArtifactField? {
      ArtifactFieldsExactly(c, d);
    } else if c.Artifact? || c.Projection? {
      ProjectedExactly(c, d);
    } else {
      ThreeSame(ValuesOf(c), ValuesOf(d));
    }
  }

  lemma EmitProper(projection: seq<Units>)
    requires ProperStrings(projection)
    ensures Proper(EmitValue(projection))
  {
    RecordProper(["projection"], [Strings(projection)]);
  }

  lemma ApprovalProper(c: Commitment)
    requires ProperCommitment(c) && c.Approval?
    ensures forall i :: 0 <= i < |ValuesOf(c)| ==> Proper(ValuesOf(c)[i])
  {
    if c.attest.Some? { AttestProper(c.attest.value); }
    if c.binding.Some? { ExpectProper(c.binding.value); }
    if c.emit.Some? { EmitProper(c.emit.value); }
  }

  lemma InputProper(c: Commitment)
    requires ProperCommitment(c)
    ensures Proper(Input(c))
  {
    NamesGood(c);
    match c
    case Approval(_, _, _, _, _) => ApprovalProper(c); RecordProper(NamesOf(c), ValuesOf(c));
    case Artifact(_, projected) => TaggedProper(projected); RecordProper(NamesOf(c), ValuesOf(c));
    case Projection(_, projected) => TaggedProper(projected); RecordProper(NamesOf(c), ValuesOf(c));
    case _ => RecordProper(NamesOf(c), ValuesOf(c));
  }

  lemma AttestProper(a: Attest)
    requires ProperAttest(a)
    ensures Proper(AttestValue(a))
  {
    RecordProper(ATTEST,
      [a.args, Optional(a.deferral), if a.projection.None? then Null else Strings(a.projection.value), Str(a.tool)]);
  }

  lemma ExpectProper(e: Expect)
    requires ProperExpect(e)
    ensures Proper(ExpectValue(e))
  {
    ExpectNames();
    RecordProper(EXPECT, ExpectParts(e));
  }

  // ---- Commitments ----

  /** SHA-256 and HMAC-SHA-256, taken to be injective; their printed prefixes differ. */
  datatype Digest = Sha(text: Units) | Hmac(key: seq<nat>, text: Units)

  predicate Keyed(c: Commitment) { c.Projection? || c.ProbeField? || c.ProbeArgs? || c.ArtifactField? }

  /** Never a truncated or an all-zero key. */
  predicate UsableKey(key: seq<nat>) { |key| == 32 && exists i :: 0 <= i < |key| && key[i] != 0 }

  /** None when the function throws. */
  function Commit(key: seq<nat>, c: Commitment): Option<Digest>
    requires ProperCommitment(c)
  {
    InputProper(c);
    if !Accepted(c) || (Keyed(c) && !UsableKey(key)) then None
    else
      var text := Canonical(Input(c)).value;
      Some(if Keyed(c) then Hmac(key, text) else Sha(text))
  }

  /** The functions refuse exactly a state binding without a probe, a blank tool, probe or field name, a member
      or field `__proto__` they could not see, and a key that is short or all zero. */
  lemma RefusesExactly(key: seq<nat>, c: Commitment)
    requires ProperCommitment(c)
    ensures Commit(key, c) == None <==>
      || (c.Approval? && c.binding.Some? && c.attest.None?)
      || ((c.Projection? || c.ProbeField? || c.ProbeArgs?) && Blank(c.probe))
      || ((c.Artifact? || c.ArtifactField?) && Blank(c.tool))
      || ((c.ProbeField? || c.ArtifactField?) && (Blank(c.field) || c.field == Ascii("__proto__")))
      || ((c.Projection? || c.Artifact?) && exists f :: f in c.projected && f.name == Ascii("__proto__"))
      || (c.ProbeArgs? && !Guarded(c.args))
      || ((c.Projection? || c.ProbeField? || c.ProbeArgs? || c.ArtifactField?)
          && (|key| != 32 || forall i :: 0 <= i < 32 ==> key[i] == 0))
  {
    assert PROTO == Ascii("__proto__");
    if c.Projection? || c.Artifact? { ProtoFields(c.projected); }
  }

  lemma ProtoFields(fs: seq<Field>)
    ensures NoProtoField(fs) <==> forall f :: f in fs ==> f.name != Ascii("__proto__")
  {
    assert PROTO == Ascii("__proto__");
    assert forall i :: 0 <= i < |fs| ==> fs[i] in fs;
  }

  /** Two commitments that were made are equal exactly when they are of one kind, to the
      same thing, and under the same key if keyed. */
  lemma CommitExactly(k: seq<nat>, c: Commitment, l: seq<nat>, d: Commitment)
    requires ProperCommitment(c) && ProperCommitment(d) && Commit(k, c).Some? && Commit(l, d).Some?
    ensures Commit(k, c) == Commit(l, d) <==> SameCommitment(c, d) && (Keyed(c) ==> k == l)
  {
    InputProper(c);
    InputProper(d);
    CanonicalExactly(Input(c), Input(d));
    if Rank(c) != Rank(d) {
      KindsDiffer(c, d);
    } else {
      NamesGood(c);
      RecordsSame(NamesOf(c), ValuesOf(c), ValuesOf(d));
      if c.Approval? { ApprovalsExactly(c, d); } else { OthersExactly(c, d); }
    }
  }

  lemma ProtoMemberDropped(x: Value)
    requires Proper(x)
    ensures Proper(Obj([Entry(PROTO, x)])) && Proper(Obj([])) && !Guarded(Obj([Entry(PROTO, x)]))
    ensures Same(Obj([Entry(PROTO, x)]), Obj([]))
    ensures Canonical(Obj([Entry(PROTO, x)])) == Canonical(Obj([]))
  {
    var hidden := Obj([Entry(PROTO, x)]);
    assert hidden.members[0].key == PROTO && IsUnits(PROTO);
    CanonicalExactly(hidden, Obj([]));
  }

  /** Why the guard is there: canonicalization drops a `__proto__` member, so without it two
      different argument lists commit alike; the probe-args commitment refuses the first. */
  lemma ProtoVanishes(tool: Units, x: Value, key: seq<nat>)
    requires IsUnits(tool) && !Blank(tool) && UsableKey(key) && Proper(x)
    ensures var hidden, bare := Obj([Entry(PROTO, x)]), Obj([]);
      && Proper(hidden) && Proper(bare)
      && Canonical(hidden) == Canonical(bare)
      && Commit(key, ProbeArgs(tool, hidden)).None? && Commit(key, ProbeArgs(tool, bare)).Some?
      && Commit(key, Idempotency(tool, None, hidden)) == Commit(key, Idempotency(tool, None, bare))
  {
    ProtoMemberDropped(x);
    CommitExactly(key, Idempotency(tool, None, Obj([Entry(PROTO, x)])), key, Idempotency(tool, None, Obj([])));
  }
}
