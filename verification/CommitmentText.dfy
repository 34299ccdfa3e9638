/** What the seven commitments are computed over, spelled out: the members of each canonical input by
    name, in the order in which they are printed. */
module CommitmentText {
  import opened Wrappers
  import opened CanonicalJson
  import opened CanonicalOrder
  import opened CanonicalPrint
  import opened Commitments
  import opened JsonReader

  // ---- Object literals whose names ascend ----

  /** What is left of an object literal: the defined members, in the order given. */
  function Kept(names: seq<string>, values: seq<Value>): seq<Entry>
    requires |names| == |values|
  {
    if names == [] then []
    else
      (if values[0].Undefined? then [] else [Entry(Ascii(names[0]), Normal(values[0]))]) + Kept(names[1..], values[1..])
  }

  ghost predicate Ascending(names: seq<string>) {
    forall i, j :: 0 <= i < j < |names| ==> KeyLess(Ascii(names[i]), Ascii(names[j]))
  }

  ghost predicate Neighbours(names: seq<string>) {
    forall i :: 0 < i < |names| ==> KeyLess(Ascii(names[i - 1]), Ascii(names[i]))
  }

  lemma {:induction false} NeighboursAscend(names: seq<string>)
    requires Neighbours(names)
    ensures Ascending(names)
  {
    if names != [] {
      var init := names[..|names| - 1];
      NeighboursAscend(init);
      forall i, j | 0 <= i < j < |names| ensures KeyLess(Ascii(names[i]), Ascii(names[j])) {
        if j < |init| {
          assert init[i] == names[i] && init[j] == names[j];
        } else if i < j - 1 {
          assert init[i] == names[i] && init[j - 1] == names[j - 1];
          KeyOrder(Ascii(names[i]), Ascii(names[j - 1]), Ascii(names[j]));
        }
      }
    }
  }

  lemma {:induction false} KeptHead(names: seq<string>, values: seq<Value>) returns (j: nat)
    requires |names| == |values| && Kept(names, values) != []
    ensures j < |names| && Kept(names, values)[0].key == Ascii(names[j])
  {
    if values[0].Undefined? {
      j := KeptHead(names[1..], values[1..]);
      j := j + 1;
    } else {
      j := 0;
    }
  }

  lemma RecordTail(names: seq<string>, values: seq<Value>)
    requires |names| == |values| && names != []
    ensures Record(names, values).members ==
      [Entry(Ascii(names[0]), values[0])] + Record(names[1..], values[1..]).members
  {
  }

  lemma {:induction false} LiteralNormal(names: seq<string>, values: seq<Value>)
    requires |names| == |values| && Ascending(names) && Names(names)
    ensures NormalMembers(Record(names, values).members) == Kept(names, values)
  {
    if names != [] {
      LiteralNormal(names[1..], values[1..]);
      RecordTail(names, values);
      FirstKept(names, values, Record(names[1..], values[1..]).members);
    }
  }

  lemma FirstKept(names: seq<string>, values: seq<Value>, rest: seq<Entry>)
    requires |names| == |values| && names != [] && Ascending(names) && Names(names)
    requires NormalMembers(rest) == Kept(names[1..], values[1..])
    ensures NormalMembers([Entry(Ascii(names[0]), values[0])] + rest) == Kept(names, values)
  {
    assert PROTO == Ascii("__proto__");
    AsciiInjective(names[0], "__proto__");
    if Kept(names[1..], values[1..]) != [] {
      var j := KeptHead(names[1..], values[1..]);
      assert names[1..][j] == names[j + 1];
    }
    assert ([Entry(Ascii(names[0]), values[0])] + rest)[1..] == rest;
  }

  // ---- The names in use ----

  /** Words that differ at i, or of which the first ends there. */
  lemma WordsAscend(a: string, b: string, i: nat)
    requires a != "" && b != "" && 'a' <= a[0] && 'a' <= b[0]
    requires i <= |a| && i < |b| && a[..i] == b[..i] && (i < |a| ==> a[i] < b[i])
    ensures KeyLess(Ascii(a), Ascii(b))
  {
    var x, y := Ascii(a), Ascii(b);
    assert x[0] >= 97 && y[0] >= 97;
    assert x[..i] == y[..i] by {
      forall k | 0 <= k < i ensures x[..i][k] == y[..i][k] { assert a[..i][k] == b[..i][k]; }
    }
    if i < |a| {
      assert SmallerAt(x, y, i);
    } else {
      assert x == x[..i] && x < y;
    }
    LexExactly(x, y);
  }

  lemma ApprovalNames()
    ensures Neighbours(["args", "attest", "emit", "expect", "tool"])
  {
    WordsAscend("args", "attest", 1);
    WordsAscend("attest", "emit", 0);
    WordsAscend("emit", "expect", 1);
    WordsAscend("expect", "tool", 0);
  }

  lemma AttestOrder()
    ensures Neighbours(ATTEST)
  {
    WordsAscend("args", "defer", 0);
    WordsAscend("defer", "projection", 0);
    WordsAscend("projection", "tool", 0);
  }

  lemma ExpectOrder()
    ensures Neighbours(EXPECT)
  {
    WordsAscend("at", "expiresAt", 0);
    WordsAscend("expiresAt", "fields", 0);
    WordsAscend("fields", "keyId", 0);
    WordsAscend("keyId", "pre", 0);
    WordsAscend("pre", "probeArgs", 2);
  }

  lemma ArtifactNames()
    ensures Neighbours(["artifact", "field", "tool", "v", "value"]) && Neighbours(["artifact", "tool", "v"])
  {
    WordsAscend("artifact", "field", 0);
    WordsAscend("field", "tool", 0);
    WordsAscend("artifact", "tool", 0);
    WordsAscend("tool", "v", 0);
    WordsAscend("v", "value", 1);
  }

  lemma ProbeNames()
    ensures Neighbours(["probe", "projection", "v"]) && Neighbours(["field", "probe", "v", "value"])
    ensures Neighbours(["args", "probe", "v"])
  {
    WordsAscend("probe", "projection", 3);
    WordsAscend("projection", "v", 0);
    WordsAscend("field", "probe", 0);
    WordsAscend("probe", "v", 0);
    WordsAscend("v", "value", 1);
    WordsAscend("args", "probe", 0);
  }

  lemma IdempotencyNames()
    ensures Neighbours(["args", "server", "tool"])
  {
    WordsAscend("args", "server", 0);
    WordsAscend("server", "tool", 0);
  }

  lemma InputNames(c: Commitment)
    ensures Neighbours(NamesOf(c))
  {
    match c
    case Approval(_, _, _, _, _) => ApprovalNames();
    case Idempotency(_, _, _) => IdempotencyNames();
    case Artifact(_, _) => ArtifactNames();
    case ArtifactField(_, _, _) => ArtifactNames();
    case _ => ProbeNames();
  }

  // ---- The inputs, spelled out ----

  function Tag(v: Scalar): Value {
    match v
    case Text(s) => Str(Ascii("s:") + s)
    case Number(t) => Str(Ascii("n:") + t)
    case Flag(on) => Str(Ascii(if on then "b:true" else "b:false"))
  }

  function One(name: string, v: Value): seq<Entry> { [Entry(Ascii(name), v)] }

  /** Undefined drops out. */
  function Slot(name: string, v: Value): seq<Entry> { if v.Undefined? then [] else One(name, Normal(v)) }

  function Maybe(name: string, s: Option<Units>): seq<Entry> { if s.None? then [] else One(name, Str(s.value)) }

  function Version(): seq<Entry> { One("v", Num(Ascii("1"))) }

  function Flat(parts: seq<seq<Entry>>): seq<Entry> { if parts == [] then [] else parts[0] + Flat(parts[1..]) }

  function AttestForm(a: Attest): seq<Entry> {
    Flat([Slot("args", a.args), Maybe("defer", a.deferral),
          One("projection", if a.projection.None? then Null else Strings(a.projection.value)),
          One("tool", Str(a.tool))])
  }

  function ExpectForm(e: Expect): seq<Entry> {
    Flat([One("at", Str(e.at)), Maybe("expiresAt", e.expiresAt),
          Slot("fields", e.fields),
          One("keyId", Str(e.keyId)), One("pre", Str(e.pre)), Maybe("probeArgs", e.probeArgs)])
  }

  /** The members of the canonical input of each commitment, one part after the other. */
  function Parts(c: Commitment): seq<seq<Entry>> {
    match c
    case Approval(tool, args, attest, binding, emit) =>
      [Slot("args", args),
       if attest.None? then [] else One("attest", Obj(AttestForm(attest.value))),
       if emit.None? then [] else One("emit", Obj(One("projection", Strings(emit.value)))),
       if binding.None? then [] else One("expect", Obj(ExpectForm(binding.value))),
       One("tool", Str(tool))]
    case Idempotency(tool, server, args) =>
      [Slot("args", args), One("server", if server.None? then Null else Str(server.value)),
       One("tool", Str(tool))]
    case Artifact(tool, projected) => [One("artifact", Normal(Tagged(projected))), One("tool", Str(tool)), Version()]
    case Projection(probe, projected) =>
      [One("probe", Str(probe)), One("projection", Normal(Tagged(projected))), Version()]
    case ProbeField(probe, field, value) =>
      [One("field", Str(field)), One("probe", Str(probe)), Version(), One("value", Tag(value))]
    case ProbeArgs(probe, args) => [Slot("args", args), One("probe", Str(probe)), Version()]
    case ArtifactField(tool, field, value) =>
      [One("artifact", Bool(true)), One("field", Str(field)), One("tool", Str(tool)), Version(),
       One("value", Tag(value))]
  }

  function Slots(names: seq<string>, values: seq<Value>): (r: seq<seq<Entry>>)
    requires |names| == |values|
    ensures |r| == |names| && forall i :: 0 <= i < |r| ==> r[i] == Slot(names[i], values[i])
  {
    seq(|names|, i requires 0 <= i < |names| => Slot(names[i], values[i]))
  }

  lemma {:induction false} KeptIsFlat(names: seq<string>, values: seq<Value>)
    requires |names| == |values|
    ensures Kept(names, values) == Flat(Slots(names, values))
  {
    if names != [] {
      KeptIsFlat(names[1..], values[1..]);
      assert Slots(names, values)[1..] == Slots(names[1..], values[1..]);
    }
  }

  /** A literal with ascending names is canonical but for its values. */
  lemma LiteralForm(names: seq<string>, values: seq<Value>, parts: seq<seq<Entry>>)
    requires |names| == |values| && Neighbours(names) && Names(names) && Slots(names, values) == parts
    ensures Normal(Record(names, values)) == Obj(Flat(parts))
  {
    NeighboursAscend(names);
    LiteralNormal(names, values);
    KeptIsFlat(names, values);
  }

  lemma TagSpelled(v: Scalar)
    ensures Str(TagScalar(v)) == Tag(v)
  {
    match v
    case Text(s) => assert Ascii("s:") == [115, 58];
    case Number(t) => assert Ascii("n:") == [110, 58];
    case Flag(on) =>
      assert Ascii("b:true") == [98, 58] + [116, 114, 117, 101];
      assert Ascii("b:false") == [98, 58] + [102, 97, 108, 115, 101];
  }

  lemma StringsNormal(ss: seq<Units>)
    ensures Normal(Strings(ss)) == Strings(ss)
  {
    var items := Strings(ss).items;
    forall i | 0 <= i < |items| ensures NormalItems(items)[i] == items[i] {
      assert items[i] == Str(ss[i]) && NormalItem(Str(ss[i])) == Str(ss[i]);
    }
  }

  lemma AttestSpelled(a: Attest)
    ensures Normal(AttestValue(a)) == Obj(AttestForm(a))
  {
    var values := [a.args, Optional(a.deferral), if a.projection.None? then Null else Strings(a.projection.value),
                   Str(a.tool)];
    AttestOrder();
    AttestNames();
    if a.projection.Some? { StringsNormal(a.projection.value); }
    LiteralForm(ATTEST, values, Slots(ATTEST, values));
    assert Slots(ATTEST, values) ==
      [Slot("args", a.args), Maybe("defer", a.deferral),
       One("projection", if a.projection.None? then Null else Strings(a.projection.value)),
       One("tool", Str(a.tool))];
  }

  lemma ExpectSpelled(e: Expect)
    ensures Normal(ExpectValue(e)) == Obj(ExpectForm(e))
  {
    ExpectOrder();
    ExpectNames();
    LiteralForm(EXPECT, ExpectParts(e), Slots(EXPECT, ExpectParts(e)));
    assert Slots(EXPECT, ExpectParts(e)) ==
      [One("at", Str(e.at)), Maybe("expiresAt", e.expiresAt),
       Slot("fields", e.fields),
       One("keyId", Str(e.keyId)), One("pre", Str(e.pre)), Maybe("probeArgs", e.probeArgs)];
  }

  lemma EmitSpelled(projection: seq<Units>)
    ensures Normal(EmitValue(projection)) == Obj(One("projection", Strings(projection)))
  {
    StringsNormal(projection);
    LiteralForm(["projection"], [Strings(projection)], [One("projection", Strings(projection))]);
    assert Flat([One("projection", Strings(projection))]) == One("projection", Strings(projection)) + Flat([]);
  }

  lemma AttestPart(a: Option<Attest>)
    ensures Slot("attest", AttestSlot(a)) == if a.None? then [] else One("attest", Obj(AttestForm(a.value)))
  {
    if a.Some? { AttestSpelled(a.value); }
  }

  lemma EmitPart(emit: Option<seq<Units>>)
    ensures Slot("emit", EmitSlot(emit)) ==
      if emit.None? then [] else One("emit", Obj(One("projection", Strings(emit.value))))
  {
    if emit.Some? { EmitSpelled(emit.value); }
  }

  lemma ExpectPart(e: Option<Expect>)
    ensures Slot("expect", ExpectSlot(e)) == if e.None? then [] else One("expect", Obj(ExpectForm(e.value)))
  {
    if e.Some? { ExpectSpelled(e.value); }
  }

  lemma ApprovalSlots(c: Commitment)
    requires c.Approval?
    ensures Slots(NamesOf(c), ValuesOf(c)) == Parts(c)
  {
    AttestPart(c.attest);
    EmitPart(c.emit);
    ExpectPart(c.binding);
  }

  lemma OtherSlots(c: Commitment)
    requires !c.Approval?
    ensures Slots(NamesOf(c), ValuesOf(c)) == Parts(c)
  {
    assert Ascii("1") == [49];
    if c.ProbeField? || c.ArtifactField? { TagSpelled(c.value); }
  }

  /** The text under each commitment is that of exactly these members, in exactly this order; and read as JSON it
      is the object they make. */
  lemma InputSpelled(c: Commitment)
    requires ProperCommitment(c)
    ensures Proper(Input(c)) && Normal(Input(c)) == Obj(Flat(Parts(c)))
    ensures ReadValue(Canonical(Input(c)).value) == Some((Obj(Flat(Parts(c))), []))
  {
    InputProper(c);
    InputNames(c);
    NamesGood(c);
    if c.Approval? { ApprovalSlots(c); } else { OtherSlots(c); }
    LiteralForm(NamesOf(c), ValuesOf(c), Parts(c));
    CanonicalReads(Input(c));
  }
}
