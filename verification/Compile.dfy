/** Dataflow recovery of the trace compiler: argument values seen in an earlier result are
    replaced by `{{name}}`, and the earlier step gets the bind that recovers them. */
module Compile {
  import opened Wrappers
  import opened Paths
  import opened Binds

  /** A recorded call with its parsed JSON result, if it has one. */
  datatype Call = Call(i: nat, args: Json, body: Option<Json>)

  // ---- Names ----

  function ReplaceNonWord(raw: string): (r: string)
    ensures |r| == |raw| && forall i :: 0 <= i < |r| ==> IsWordChar(r[i])
  {
    seq(|raw|, i requires 0 <= i < |raw| => if IsWordChar(raw[i]) then raw[i] else '_')
  }

  function SanitizeIdentifier(raw: string): (r: string)
    ensures IsIdentifier(r)
    ensures IsIdentifier(raw) ==> r == raw
  {
    var out := ReplaceNonWord(raw);
    if out == [] || IsDigit(out[0]) then "v_" + out else out
  }

  predicate AllDigits(s: string) { s != [] && forall i :: 0 <= i < |s| ==> IsDigit(s[i]) }

  function BaseName(path: string): string {
    var segs := Split(path);
    var last := segs[|segs| - 1];
    SanitizeIdentifier(if AllDigits(last) && |segs| > 1 then segs[|segs| - 2] + "_" + last else last)
  }

  function Numbered(base: string, k: nat): (name: string)
    ensures IsIdentifier(base) ==> IsIdentifier(name)
  {
    base + Decimal(k)
  }

  lemma NumberedDiffer(base: string, j: nat, k: nat)
    requires j != k
    ensures Numbered(base, j) != Numbered(base, k)
  {
    if Numbered(base, j) == Numbered(base, k) {
      assert Decimal(j) == Numbered(base, j)[|base|..] == Decimal(k);
      ParseDecimal(j);
      ParseDecimal(k);
    }
  }

  /** The base itself if it is free, else the first free numbered form from 2 on. */
  ghost predicate Fresh(base: string, used: set<string>, name: string) {
    && name !in used
    && (base !in used ==> name == base)
    && (base in used ==> exists k: nat :: FirstFree(base, used, k) && name == Numbered(base, k))
  }

  ghost predicate FirstFree(base: string, used: set<string>, k: nat) {
    k >= 2 && Numbered(base, k) !in used && forall j: nat :: 2 <= j < k ==> Numbered(base, j) in used
  }

  /** The numbered forms below suffix. */
  ghost function Rejected(base: string, suffix: nat): set<string> {
    if suffix <= 2 then {} else Rejected(base, suffix - 1) + {Numbered(base, suffix - 1)}
  }

  lemma {:induction false} RejectedAre(base: string, suffix: nat, t: string) returns (k: nat)
    requires t in Rejected(base, suffix)
    ensures 2 <= k < suffix && t == Numbered(base, k)
  {
    if t == Numbered(base, suffix - 1) { return suffix - 1; }
    k := RejectedAre(base, suffix - 1, t);
  }

  /** Every form tried before the current one is used. */
  ghost predicate TriedAreUsed(base: string, used: set<string>, suffix: nat, name: string) {
    && (suffix == 2 ==> name == base)
    && (suffix > 2 ==> base in used && name == Numbered(base, suffix - 1))
    && (forall j: nat :: 2 <= j < suffix - 1 ==> Numbered(base, j) in used)
  }

  /** Ends because each rejected candidate is another used name. */
  method FreshName(base: string, used: set<string>) returns (name: string)
    requires IsIdentifier(base)
    ensures Fresh(base, used, name) && IsIdentifier(name)
  {
    name := base;
    var suffix := 2;
    while name in used
      invariant suffix >= 2 && IsIdentifier(name) && TriedAreUsed(base, used, suffix, name)
      decreases if suffix == 2 then 1 else 0, |used - Rejected(base, suffix - 1)|
    {
      RejectNext(base, used, suffix, name);
      name := Numbered(base, suffix);
      suffix := suffix + 1;
    }
    TriedIsFresh(base, used, suffix, name);
  }

  lemma RejectNext(base: string, used: set<string>, suffix: nat, name: string)
    requires suffix >= 2 && name in used && TriedAreUsed(base, used, suffix, name)
    ensures TriedAreUsed(base, used, suffix + 1, Numbered(base, suffix))
    ensures suffix > 2 ==> |used - Rejected(base, suffix)| < |used - Rejected(base, suffix - 1)|
  {
    if suffix > 2 {
      if name in Rejected(base, suffix - 1) {
        var k := RejectedAre(base, suffix - 1, name);
        NumberedDiffer(base, k, suffix - 1);
      }
      assert used - Rejected(base, suffix) == used - Rejected(base, suffix - 1) - {name};
    }
  }

  lemma TriedIsFresh(base: string, used: set<string>, suffix: nat, name: string)
    requires suffix >= 2 && name !in used && TriedAreUsed(base, used, suffix, name)
    ensures Fresh(base, used, name)
  {
    if suffix > 2 { assert FirstFree(base, used, suffix - 1); }
  }

  // ---- Registry ----

  /** `bindRegistry`, `usedNames` and `bindsByStep`. */
  datatype Registry = Registry(names: map<(nat, string), string>, used: set<string>, binds: map<nat, seq<Bind>>)

  function BindsOf(r: Registry, step: nat): seq<Bind> { if step in r.binds then r.binds[step] else [] }

  /** Bind lines and registry entries are the same thing, and no name serves twice. */
  ghost predicate RegistryOk(r: Registry) {
    && (forall e :: e in r.names ==> r.names[e] in r.used && Bind(r.names[e], e.1) in BindsOf(r, e.0))
    && (forall s: nat, i :: 0 <= i < |BindsOf(r, s)| ==>
          var b := BindsOf(r, s)[i]; (s, b.path) in r.names && r.names[(s, b.path)] == b.name && IsIdentifier(b.name))
    && (forall d, e :: d in r.names && e in r.names && d != e ==> r.names[d] != r.names[e])
    && (forall s: nat, i, j :: 0 <= i < j < |BindsOf(r, s)| ==> BindsOf(r, s)[i].path != BindsOf(r, s)[j].path)
  }

  /** Nothing already promised is ever taken back. */
  ghost predicate Grows(r: Registry, t: Registry) {
    && (forall e :: e in r.names ==> e in t.names && t.names[e] == r.names[e])
    && (forall s: nat :: BindsOf(r, s) <= BindsOf(t, s))
  }

  /** A source has its name for good; a new one takes the fresh name of its last segment. */
  ghost predicate Named(r: Registry, step: nat, path: string, name: string, t: Registry) {
    && t.names == r.names[(step, path) := name]
    && ((step, path) in r.names ==> t == r)
    && ((step, path) !in r.names ==> Fresh(BaseName(path), r.used, name) && t.used == r.used + {name})
  }

  method NameFor(r: Registry, step: nat, path: string) returns (name: string, t: Registry)
    requires RegistryOk(r)
    ensures RegistryOk(t) && Grows(r, t)
    ensures Named(r, step, path, name, t) && IsIdentifier(name)
  {
    if (step, path) in r.names {
      name, t := r.names[(step, path)], r;
      assert Bind(name, path) in BindsOf(r, step);
      return;
    }
    name := FreshName(BaseName(path), r.used);
    t := Registered(r, step, path, name);
    RegisterGrows(r, step, path, name);
  }

  function Registered(r: Registry, step: nat, path: string, name: string): (t: Registry)
    ensures BindsOf(t, step) == BindsOf(r, step) + [Bind(name, path)]
    ensures forall s: nat :: s != step ==> BindsOf(t, s) == BindsOf(r, s)
  {
    Registry(r.names[(step, path) := name], r.used + {name}, r.binds[step := BindsOf(r, step) + [Bind(name, path)]])
  }

  lemma RegisterGrows(r: Registry, step: nat, path: string, name: string)
    requires RegistryOk(r) && (step, path) !in r.names && name !in r.used && IsIdentifier(name)
    ensures RegistryOk(Registered(r, step, path, name)) && Grows(r, Registered(r, step, path, name))
  {
    var t := Registered(r, step, path, name);
    forall e | e in t.names ensures t.names[e] in t.used && Bind(t.names[e], e.1) in BindsOf(t, e.0) {
      EntryIsLine(r, step, path, name, e);
    }
    forall s: nat, i | 0 <= i < |BindsOf(t, s)|
      ensures var b := BindsOf(t, s)[i];
        (s, b.path) in t.names && t.names[(s, b.path)] == b.name && IsIdentifier(b.name)
    {
      LineIsEntry(r, step, path, name, s, i);
    }
    forall s: nat, i, j | 0 <= i < j < |BindsOf(t, s)| ensures BindsOf(t, s)[i].path != BindsOf(t, s)[j].path {
      LinesDiffer(r, step, path, name, s, i, j);
    }
  }

  lemma EntryIsLine(r: Registry, step: nat, path: string, name: string, e: (nat, string))
    requires RegistryOk(r) && (step, path) !in r.names && e in Registered(r, step, path, name).names
    ensures var t := Registered(r, step, path, name); t.names[e] in t.used && Bind(t.names[e], e.1) in BindsOf(t, e.0)
  {
    if e == (step, path) {
      assert BindsOf(Registered(r, step, path, name), step)[|BindsOf(r, step)|] == Bind(name, path);
    } else {
      assert Bind(r.names[e], e.1) in BindsOf(r, e.0);
    }
  }

  lemma LineIsEntry(r: Registry, step: nat, path: string, name: string, s: nat, i: nat)
    requires RegistryOk(r) && (step, path) !in r.names && IsIdentifier(name)
    requires i < |BindsOf(Registered(r, step, path, name), s)|
    ensures var t := Registered(r, step, path, name); var b := BindsOf(t, s)[i];
      (s, b.path) in t.names && t.names[(s, b.path)] == b.name && IsIdentifier(b.name)
  {
    if s != step || i < |BindsOf(r, step)| {
      assert BindsOf(Registered(r, step, path, name), s)[i] == BindsOf(r, s)[i];
    }
  }

  lemma LinesDiffer(r: Registry, step: nat, path: string, name: string, s: nat, i: nat, j: nat)
    requires RegistryOk(r) && (step, path) !in r.names && i < j < |BindsOf(Registered(r, step, path, name), s)|
    ensures var t := Registered(r, step, path, name); BindsOf(t, s)[i].path != BindsOf(t, s)[j].path
  {
    var t := Registered(r, step, path, name);
    assert BindsOf(t, s)[i] == BindsOf(r, s)[i];
    if s != step || j < |BindsOf(r, step)| {
      assert BindsOf(t, s)[j] == BindsOf(r, s)[j];
    } else {
      assert (s, BindsOf(r, s)[i].path) in r.names;
    }
  }

  // ---- The reserved name ----

  function LastSegment(path: string): string { Split(path)[|Split(path)| - 1] }

  /** Only a path that ends in a reserved name gets one, and the first that does gets it. */
  ghost predicate ReservedOk(r: Registry) {
    && (forall e :: e in r.names && Reserved(r.names[e]) ==> Reserved(LastSegment(e.1)))
    && (forall e :: e in r.names && Reserved(LastSegment(e.1)) ==> exists d :: d in r.names && Reserved(r.names[d]))
    && (forall u :: u in r.used && Reserved(u) ==> exists d :: d in r.names && Reserved(r.names[d]))
  }

  lemma BaseIsReserved(path: string)
    ensures Reserved(BaseName(path)) <==> Reserved(LastSegment(path))
  {
    var segs := Split(path);
    var last := segs[|segs| - 1];
    if Reserved(last) {
      assert !IsDigit(last[0]) && IsWord(last);
    } else if AllDigits(last) && |segs| > 1 {
      var raw := segs[|segs| - 2] + "_" + last;
      var out := ReplaceNonWord(raw);
      assert out[|segs[|segs| - 2]|] == '_';
      assert BaseName(path) == out || BaseName(path) == "v_" + out;
      assert '_' in BaseName(path) by { assert ("v_" + out)[1] == '_'; }
    } else {
      OnlyTodayReplaces(last);
      assert ("v_" + ReplaceNonWord(last))[0] == 'v';
    }
  }

  lemma OnlyTodayReplaces(raw: string)
    ensures Reserved(ReplaceNonWord(raw)) ==> Reserved(raw)
  {
    if Reserved(ReplaceNonWord(raw)) {
      forall i | 0 <= i < |raw| ensures raw[i] == "today"[i] { assert ReplaceNonWord(raw)[i] == "today"[i] != '_'; }
    }
  }

  lemma NumberedIsFree(base: string, k: nat)
    ensures !Reserved(Numbered(base, k))
  {
    var name := Numbered(base, k);
    assert IsDigit(name[|name| - 1]);
  }

  /** A new name is the reserved one exactly if the path ends in it and it was still free. */
  lemma NameIsReserved(r: Registry, step: nat, path: string, name: string, t: Registry)
    requires (step, path) !in r.names && Named(r, step, path, name, t)
    ensures Reserved(name) <==> Reserved(LastSegment(path)) && LastSegment(path) !in r.used
  {
    var base := BaseName(path);
    BaseIsReserved(path);
    if base in r.used {
      var k: nat :| FirstFree(base, r.used, k) && name == Numbered(base, k);
      NumberedIsFree(base, k);
    }
  }

  lemma NamedReserved(r: Registry, step: nat, path: string, name: string, t: Registry)
    requires RegistryOk(r) && ReservedOk(r) && Named(r, step, path, name, t)
    ensures ReservedOk(t)
  {
    if (step, path) !in r.names {
      NameIsReserved(r, step, path, name, t);
      assert (step, path) in t.names;
      forall d | d in r.names && Reserved(r.names[d]) ensures d in t.names && Reserved(t.names[d]) {}
    }
  }

  // ---- Search ----

  predicate IsCandidate(l: Leaf) {
    l.segs != [] && ((l.value.Str? && |l.value.s| >= 4) || (l.value.Num? && |l.value.text| >= 4))
  }

  /** Leaf k of a result is a hit for the value. */
  predicate HitAt(body: Option<Json>, k: nat, value: Json) {
    && body.Some? && k < |Leaves(body.value)|
    && FlatPath(Leaves(body.value)[k].segs) != "" && Leaves(body.value)[k].value == value
  }

  ghost predicate FirstHitAt(body: Option<Json>, k: nat, value: Json) {
    HitAt(body, k, value) && forall i: nat :: i < k ==> !HitAt(body, i, value)
  }

  ghost predicate Contains(c: Call, value: Json) { exists k :: HitAt(c.body, k, value) }

  /** Leaf k of call j's result is where call n's value is taken from: the first hit of the most recent
      earlier result that has one. */
  ghost predicate SourceAt(calls: seq<Call>, n: nat, value: Json, j: nat, k: nat) {
    && j < n < |calls| && FirstHitAt(calls[j].body, k, value)
    && forall i :: j < i < n ==> !Contains(calls[i], value)
  }

  /** So does the bind line with that path. */
  ghost predicate SourcePath(calls: seq<Call>, n: nat, value: Json, j: nat, path: string) {
    exists k: nat :: SourceAt(calls, n, value, j, k) && FlatPath(Leaves(calls[j].body.value)[k].segs) == path
  }

  ghost predicate SourceIs(calls: seq<Call>, n: nat, value: Json, j: nat, segs: seq<string>) {
    exists k: nat :: SourceAt(calls, n, value, j, k) && Leaves(calls[j].body.value)[k].segs == segs
  }

  /** Argument leaf i of call n is taken from there. */
  ghost predicate Taken(calls: seq<Call>, n: nat, i: nat, j: nat, k: nat) {
    && n < |calls| && i < |Leaves(calls[n].args)| && IsCandidate(Leaves(calls[n].args)[i])
    && SourceAt(calls, n, Leaves(calls[n].args)[i].value, j, k)
  }

  /** Every leaf that an argument is taken from can be bound. */
  ghost predicate SourcesBindable(calls: seq<Call>) {
    forall n: nat, i: nat, j: nat, k: nat :: Taken(calls, n, i, j, k) ==> Bindable(Leaves(calls[j].body.value)[k].segs)
  }

  /** Call indices increase, keys occur once, a dot-path can hold each key of the args, and what is reused can
      be bound. */
  ghost predicate WellRecorded(calls: seq<Call>) {
    && (forall j, k :: 0 <= j < k < |calls| ==> calls[j].i < calls[k].i)
    && (forall k :: 0 <= k < |calls| ==> WellKeyed(calls[k].args))
    && (forall k :: 0 <= k < |calls| && calls[k].body.Some? ==> KeysDistinct(calls[k].body.value))
    && SourcesBindable(calls)
  }

  /** Most recent earlier result first, document order within it. */
  method FindSource(calls: seq<Call>, n: nat, value: Json) returns (r: Option<(nat, seq<string>)>)
    requires n < |calls|
    ensures r.None? ==> forall j :: 0 <= j < n ==> !Contains(calls[j], value)
    ensures r.Some? ==>
      var (j, segs) := r.value;
      SourceIs(calls, n, value, j, segs)
  {
    var j := n;
    while j > 0
      invariant 0 <= j <= n
      invariant forall i :: j <= i < n ==> !Contains(calls[i], value)
    {
      j := j - 1;
      if calls[j].body.Some? {
        var leaves := Leaves(calls[j].body.value);
        var k := 0;
        while k < |leaves|
          invariant 0 <= k <= |leaves|
          invariant forall i :: 0 <= i < k ==> !HitAt(calls[j].body, i, value)
        {
          if FlatPath(leaves[k].segs) != "" && leaves[k].value == value {
            assert FirstHitAt(calls[j].body, k, value);
            assert SourceAt(calls, n, value, j, k);
            return Some((j, leaves[k].segs));
          }
          k := k + 1;
        }
      }
    }
    return None;
  }

  // ---- Compilation ----

  function Hole(name: string): Json { Str("{{" + name + "}}") }

  function Holes(names: map<seq<string>, string>): map<seq<string>, Json> { map p | p in names :: Hole(names[p]) }

  /** The leaf at p of call n is recovered by name: a bind of a strictly earlier step, its source, yields it. */
  ghost predicate Recovered(calls: seq<Call>, n: nat, r: Registry, p: seq<string>, name: string)
    requires n < |calls|
  {
    && Resolve(calls[n].args, p).Some? && IsScalar(Resolve(calls[n].args, p).value)
    && exists j, path :: RecoveredFrom(calls, n, r, j, path, name, Resolve(calls[n].args, p).value)
  }

  ghost predicate RecoveredFrom(calls: seq<Call>, n: nat, r: Registry, j: nat, path: string, name: string, value: Json)
    requires n < |calls|
  {
    j < n && SourcePath(calls, n, value, j, path) && BoundBy(calls[j], r, path, name, value)
  }

  ghost predicate BoundBy(c: Call, r: Registry, path: string, name: string, value: Json) {
    && c.body.Some? && (c.i + 1, path) in r.names && r.names[(c.i + 1, path)] == name
    && EvalBind(Bind(name, path), c.body.value) == Bound(value)
  }

  lemma RecoveredGrows(calls: seq<Call>, n: nat, r: Registry, t: Registry, p: seq<string>, name: string)
    requires n < |calls| && Recovered(calls, n, r, p, name) && Grows(r, t)
    ensures Recovered(calls, n, t, p, name)
  {
    var j, path :| RecoveredFrom(calls, n, r, j, path, name, Resolve(calls[n].args, p).value);
    assert RecoveredFrom(calls, n, t, j, path, name, Resolve(calls[n].args, p).value);
  }

  ghost predicate BindableHit(c: Call, h: nat, value: Json) {
    HitAt(c.body, h, value) && KeysDistinct(c.body.value) && Bindable(Leaves(c.body.value)[h].segs)
  }

  lemma SourceIsBindable(calls: seq<Call>, n: nat, k: nat, j: nat, segs: seq<string>) returns (h: nat)
    requires WellRecorded(calls) && n < |calls| && k < |Leaves(calls[n].args)| && IsCandidate(Leaves(calls[n].args)[k])
    requires SourceIs(calls, n, Leaves(calls[n].args)[k].value, j, segs)
    ensures j < n && BindableHit(calls[j], h, Leaves(calls[n].args)[k].value)
    ensures SourceAt(calls, n, Leaves(calls[n].args)[k].value, j, h)
    ensures Leaves(calls[j].body.value)[h].segs == segs
  {
    h :| SourceAt(calls, n, Leaves(calls[n].args)[k].value, j, h) && Leaves(calls[j].body.value)[h].segs == segs;
    assert Taken(calls, n, k, j, h);
  }

  /** A bindable hit's bind evaluates to the value. */
  lemma HitEvaluates(body: Json, k: nat, value: Json, name: string)
    requires KeysDistinct(body) && HitAt(Some(body), k, value) && IsIdentifier(name)
    requires Bindable(Leaves(body)[k].segs)
    ensures EvalBind(Bind(name, FlatPath(Leaves(body)[k].segs)), body) == Bound(value) && IsScalar(value)
  {
    LeavesResolve(body, k);
    HitExactly(body, k, name);
  }

  /** Every bind line reads a scalar out of its step's recorded result. */
  ghost predicate LinesBind(calls: seq<Call>, r: Registry) {
    forall e :: e in r.names ==> exists j: nat :: j < |calls| && LineBinds(calls[j], e, r.names[e])
  }

  ghost predicate LineBinds(c: Call, e: (nat, string), name: string) {
    && c.i + 1 == e.0 && c.body.Some?
    && EvalBind(Bind(name, e.1), c.body.value).Bound? && IsScalar(EvalBind(Bind(name, e.1), c.body.value).value)
  }

  lemma NamedBinds(calls: seq<Call>, r: Registry, j: nat, h: nat, value: Json, name: string, t: Registry)
    requires WellRecorded(calls) && LinesBind(calls, r) && j < |calls| && IsIdentifier(name)
    requires BindableHit(calls[j], h, value)
    requires Named(r, calls[j].i + 1, FlatPath(Leaves(calls[j].body.value)[h].segs), name, t)
    ensures LinesBind(calls, t)
  {
    HitEvaluates(calls[j].body.value, h, value, name);
    var e := (calls[j].i + 1, FlatPath(Leaves(calls[j].body.value)[h].segs));
    assert LineBinds(calls[j], e, name);
    forall d | d in t.names ensures exists i: nat :: i < |calls| && LineBinds(calls[i], d, t.names[d]) {
      if d != e {
        var i: nat :| i < |calls| && LineBinds(calls[i], d, r.names[d]);
      }
    }
  }

  ghost predicate CandidateAt(args: Json, k: nat, p: seq<string>) {
    k < |Leaves(args)| && IsCandidate(Leaves(args)[k]) && Leaves(args)[k].segs == p
  }

  ghost predicate OnlyCandidates(args: Json, names: map<seq<string>, string>) {
    forall p :: p in names ==> exists i :: CandidateAt(args, i, p)
  }

  ghost predicate AllRecovered(calls: seq<Call>, n: nat, r: Registry, names: map<seq<string>, string>)
    requires n < |calls|
  {
    forall p :: p in names ==> Recovered(calls, n, r, p, names[p])
  }

  ghost predicate SeenBefore(calls: seq<Call>, n: nat, value: Json)
    requires n < |calls|
  {
    exists j :: 0 <= j < n && Contains(calls[j], value)
  }

  /** After the first k leaves: args are the original with holes at `names`, every hole is
      recovered, and a candidate leaf became a hole exactly if an earlier result holds its value. */
  ghost predicate CompiledTo(calls: seq<Call>, n: nat, r: Registry, k: nat, filled: Json,
                             names: map<seq<string>, string>)
    requires n < |calls| && k <= |Leaves(calls[n].args)|
  {
    var leaves := Leaves(calls[n].args);
    && filled == Subst(calls[n].args, [], Holes(names))
    && AllRecovered(calls, n, r, names)
    && OnlyCandidates(calls[n].args, names)
    && (forall i :: 0 <= i < k && IsCandidate(leaves[i]) && SeenBefore(calls, n, leaves[i].value) ==>
          leaves[i].segs in names)
    && (forall p :: p in names ==> SeenBefore(calls, n, Resolve(calls[n].args, p).value))
  }

  lemma HolesGrow(names: map<seq<string>, string>, p: seq<string>, name: string)
    ensures Holes(names[p := name]) == Holes(names)[p := Hole(name)]
  {
  }

  lemma HoleIsWritten(args: Json, k: nat, names: map<seq<string>, string>, name: string)
    requires WellKeyed(args) && k < |Leaves(args)| && Leaves(args)[k].segs != []
    ensures var p := Leaves(args)[k].segs;
      && Resolve(args, p) == Some(Leaves(args)[k].value) && IsScalar(Leaves(args)[k].value)
      && SetAt(Subst(args, [], Holes(names)), Split(FlatPath(p)), Hole(name))
         == Subst(args, [], Holes(names[p := name]))
  {
    var p := Leaves(args)[k].segs;
    LeavesResolve(args, k);
    SplitFlat(p);
    SetAtSubst(args, [], p, Holes(names), Hole(name));
    assert [] + p == p;
    HolesGrow(names, p, name);
  }

  /** One recovered candidate: name, bind, `setAtPath`. */
  lemma OneHole(calls: seq<Call>, n: nat, r: Registry, t: Registry, k: nat, filled: Json,
                names: map<seq<string>, string>,
                j: nat, h: nat, name: string)
    requires WellRecorded(calls) && n < |calls| && k < |Leaves(calls[n].args)| && IsCandidate(Leaves(calls[n].args)[k])
    requires CompiledTo(calls, n, r, k, filled, names) && Grows(r, t) && IsIdentifier(name)
    requires j < n && BindableHit(calls[j], h, Leaves(calls[n].args)[k].value)
    requires SourceAt(calls, n, Leaves(calls[n].args)[k].value, j, h)
    requires var e := (calls[j].i + 1, FlatPath(Leaves(calls[j].body.value)[h].segs));
      e in t.names && t.names[e] == name
    ensures var p := Leaves(calls[n].args)[k].segs;
      CompiledTo(calls, n, t, k + 1, SetAt(filled, Split(FlatPath(p)), Hole(name)), names[p := name])
  {
    var leaf := Leaves(calls[n].args)[k];
    HoleIsWritten(calls[n].args, k, names, name);
    HoleIsRecovered(calls, n, t, j, h, leaf.segs, leaf.value, name);
    AddRecovered(calls, n, r, t, names, leaf.segs, name);
    OneMoreCandidate(calls, n, r, k, filled, names, j, h, name);
  }

  /** Between two leaves: the args so far, and a registry in order. */
  ghost predicate Compiling(calls: seq<Call>, n: nat, r: Registry, k: nat, filled: Json,
                            names: map<seq<string>, string>)
    requires n < |calls| && k <= |Leaves(calls[n].args)|
  {
    RegistryOk(r) && ReservedOk(r) && LinesBind(calls, r) && CompiledTo(calls, n, r, k, filled, names)
  }

  lemma RegistryStays(calls: seq<Call>, r: Registry, j: nat, h: nat, value: Json, name: string, t: Registry)
    requires WellRecorded(calls) && RegistryOk(r) && ReservedOk(r) && LinesBind(calls, r)
    requires j < |calls| && IsIdentifier(name) && BindableHit(calls[j], h, value)
    requires Named(r, calls[j].i + 1, FlatPath(Leaves(calls[j].body.value)[h].segs), name, t)
    ensures ReservedOk(t) && LinesBind(calls, t)
  {
    assert ReservedOk(t) by {
      NamedReserved(r, calls[j].i + 1, FlatPath(Leaves(calls[j].body.value)[h].segs), name, t);
    }
    NamedBinds(calls, r, j, h, value, name, t);
  }

  lemma OneRecovered(calls: seq<Call>, n: nat, r: Registry, t: Registry, k: nat, filled: Json,
                     names: map<seq<string>, string>,
                     j: nat, h: nat, name: string)
    requires WellRecorded(calls) && n < |calls| && k < |Leaves(calls[n].args)| && IsCandidate(Leaves(calls[n].args)[k])
    requires Compiling(calls, n, r, k, filled, names)
    requires RegistryOk(t) && Grows(r, t) && IsIdentifier(name)
    requires j < n && BindableHit(calls[j], h, Leaves(calls[n].args)[k].value)
    requires SourceAt(calls, n, Leaves(calls[n].args)[k].value, j, h)
    requires Named(r, calls[j].i + 1, FlatPath(Leaves(calls[j].body.value)[h].segs), name, t)
    ensures var p := Leaves(calls[n].args)[k].segs;
      Compiling(calls, n, t, k + 1, SetAt(filled, Split(FlatPath(p)), Hole(name)), names[p := name])
  {
    var p := Leaves(calls[n].args)[k].segs;
    RegistryStays(calls, r, j, h, Leaves(calls[n].args)[k].value, name, t);
    assert CompiledTo(calls, n, t, k + 1, SetAt(filled, Split(FlatPath(p)), Hole(name)), names[p := name]) by {
      OneHole(calls, n, r, t, k, filled, names, j, h, name);
    }
  }

  lemma OneMoreCandidate(calls: seq<Call>, n: nat, r: Registry, k: nat, filled: Json, names: map<seq<string>, string>,
                         j: nat, h: nat, name: string)
    requires n < |calls| && k < |Leaves(calls[n].args)| && IsCandidate(Leaves(calls[n].args)[k])
    requires CompiledTo(calls, n, r, k, filled, names)
    requires j < n && BindableHit(calls[j], h, Leaves(calls[n].args)[k].value)
    requires Resolve(calls[n].args, Leaves(calls[n].args)[k].segs) == Some(Leaves(calls[n].args)[k].value)
    ensures var leaves := Leaves(calls[n].args); var grown := names[leaves[k].segs := name];
      && OnlyCandidates(calls[n].args, grown)
      && (forall i :: 0 <= i < k + 1 && IsCandidate(leaves[i]) && SeenBefore(calls, n, leaves[i].value) ==>
            leaves[i].segs in grown)
      && (forall p :: p in grown ==> SeenBefore(calls, n, Resolve(calls[n].args, p).value))
  {
    var leaf := Leaves(calls[n].args)[k];
    assert CandidateAt(calls[n].args, k, leaf.segs);
    assert Contains(calls[j], leaf.value) && SeenBefore(calls, n, leaf.value);
  }

  lemma AddRecovered(calls: seq<Call>, n: nat, r: Registry, t: Registry, names: map<seq<string>, string>,
                     p: seq<string>, name: string)
    requires n < |calls| && AllRecovered(calls, n, r, names) && Grows(r, t) && Recovered(calls, n, t, p, name)
    ensures AllRecovered(calls, n, t, names[p := name])
  {
    forall q | q in names ensures Recovered(calls, n, t, q, names[q]) {
      RecoveredGrows(calls, n, r, t, q, names[q]);
    }
  }

  lemma HoleIsRecovered(calls: seq<Call>, n: nat, t: Registry, j: nat, h: nat, p: seq<string>, value: Json,
                        name: string)
    requires WellRecorded(calls) && j < n < |calls| && IsIdentifier(name)
    requires Resolve(calls[n].args, p) == Some(value) && IsScalar(value)
    requires BindableHit(calls[j], h, value) && SourceAt(calls, n, value, j, h)
    requires var e := (calls[j].i + 1, FlatPath(Leaves(calls[j].body.value)[h].segs));
      e in t.names && t.names[e] == name
    ensures Recovered(calls, n, t, p, name) && SeenBefore(calls, n, value)
  {
    HitEvaluates(calls[j].body.value, h, value, name);
    assert SourcePath(calls, n, value, j, FlatPath(Leaves(calls[j].body.value)[h].segs));
    assert RecoveredFrom(calls, n, t, j, FlatPath(Leaves(calls[j].body.value)[h].segs), name, value);
    assert Contains(calls[j], value);
  }

  lemma NoHole(calls: seq<Call>, n: nat, r: Registry, k: nat, filled: Json, names: map<seq<string>, string>)
    requires WellRecorded(calls) && n < |calls| && k < |Leaves(calls[n].args)|
    requires CompiledTo(calls, n, r, k, filled, names)
    requires IsCandidate(Leaves(calls[n].args)[k]) ==> !SeenBefore(calls, n, Leaves(calls[n].args)[k].value)
    ensures CompiledTo(calls, n, r, k + 1, filled, names)
  {
  }

  lemma GrowsOn(r: Registry, t: Registry, u: Registry)
    requires Grows(r, t) && Grows(t, u)
    ensures Grows(r, u)
  {
  }

  /** The loop over one call's candidates. */
  method CompileArgs(calls: seq<Call>, n: nat, r: Registry)
    returns (filled: Json, names: map<seq<string>, string>, t: Registry)
    requires WellRecorded(calls) && n < |calls| && RegistryOk(r) && ReservedOk(r) && LinesBind(calls, r)
    ensures Compiling(calls, n, t, |Leaves(calls[n].args)|, filled, names) && Grows(r, t)
  {
    var leaves := Leaves(calls[n].args);
    filled, names, t := calls[n].args, map[], r;
    SubstNothing(filled, []);
    var k := 0;
    while k < |leaves|
      invariant 0 <= k <= |leaves|
      invariant Compiling(calls, n, t, k, filled, names) && Grows(r, t)
    {
      var hit := None;
      if IsCandidate(leaves[k]) {
        hit := FindSource(calls, n, leaves[k].value);
      }
      if hit.Some? {
        var (j, segs) := hit.value;
        ghost var h := SourceIsBindable(calls, n, k, j, segs);
        var name, t' := NameFor(t, calls[j].i + 1, FlatPath(segs));
        OneRecovered(calls, n, t, t', k, filled, names, j, h, name);
        GrowsOn(r, t, t');
        filled := SetAt(filled, Split(FlatPath(leaves[k].segs)), Hole(name));
        names := names[leaves[k].segs := name];
        t := t';
      } else {
        NoHole(calls, n, t, k, filled, names);
      }
      k := k + 1;
    }
  }

  lemma CompiledGrows(calls: seq<Call>, n: nat, r: Registry, t: Registry, filled: Json, names: map<seq<string>, string>)
    requires n < |calls| && CompiledTo(calls, n, r, |Leaves(calls[n].args)|, filled, names) && Grows(r, t)
    ensures CompiledTo(calls, n, t, |Leaves(calls[n].args)|, filled, names)
  {
    forall p | p in names ensures Recovered(calls, n, t, p, names[p]) {
      RecoveredGrows(calls, n, r, t, p, names[p]);
    }
    assert AllRecovered(calls, n, t, names);
  }

  /** A compiled trace: every call's args with their holes, under one registry of bind lines. */
  ghost predicate Compiled(calls: seq<Call>, filled: seq<Json>, names: seq<map<seq<string>, string>>, r: Registry) {
    && |filled| == |names| == |calls| && RegistryOk(r) && ReservedOk(r) && LinesBind(calls, r)
    && forall n :: 0 <= n < |calls| ==> CompiledTo(calls, n, r, |Leaves(calls[n].args)|, filled[n], names[n])
  }

  /** Every call compiled against one registry: the binds each step ends up with. */
  method CompileCalls(calls: seq<Call>)
    returns (filled: seq<Json>, names: seq<map<seq<string>, string>>, r: Registry)
    requires WellRecorded(calls)
    ensures Compiled(calls, filled, names, r)
  {
    filled, names, r := [], [], Registry(map[], {}, map[]);
    var n := 0;
    while n < |calls|
      invariant 0 <= n == |filled| == |names| <= |calls| && RegistryOk(r) && ReservedOk(r) && LinesBind(calls, r)
      invariant forall m :: 0 <= m < n ==> CompiledTo(calls, m, r, |Leaves(calls[m].args)|, filled[m], names[m])
    {
      var args, holes, t := CompileArgs(calls, n, r);
      forall m | 0 <= m < n ensures CompiledTo(calls, m, t, |Leaves(calls[m].args)|, filled[m], names[m]) {
        CompiledGrows(calls, m, r, t, filled[m], names[m]);
      }
      filled, names, r := filled + [args], names + [holes], t;
      n := n + 1;
    }
  }

  /** A name leads back to its step and line. */
  lemma NameIsUnique(r: Registry, step: nat, path: string, s: nat, k: nat)
    requires RegistryOk(r) && (step, path) in r.names && k < |BindsOf(r, s)|
    requires BindsOf(r, s)[k].name == r.names[(step, path)]
    ensures s == step && BindsOf(r, s)[k].path == path
  {
    var b := BindsOf(r, s)[k];
    assert (s, b.path) in r.names && r.names[(s, b.path)] == b.name == r.names[(step, path)];
  }

  lemma BoundLine(calls: seq<Call>, n: nat, r: Registry, p: seq<string>, name: string) returns (j: nat, path: string)
    requires n < |calls| && Recovered(calls, n, r, p, name)
    ensures j < n && Resolve(calls[n].args, p).Some?
    ensures BoundBy(calls[j], r, path, name, Resolve(calls[n].args, p).value)
  {
    j, path :| RecoveredFrom(calls, n, r, j, path, name, Resolve(calls[n].args, p).value);
  }

  /** What a reader of a compiled skill relies on: a hole's name is bound by exactly one
      bind line of the whole skill, on a strictly earlier step, and evaluating that line
      against the recorded result gives exactly the recorded argument. */
  lemma OneBindPerName(calls: seq<Call>, n: nat, r: Registry, p: seq<string>, name: string) returns (j: nat, i: nat)
    requires n < |calls| && RegistryOk(r) && Recovered(calls, n, r, p, name)
    ensures j < n && i < |BindsOf(r, calls[j].i + 1)| && TheBind(calls, r, j, i, name, Resolve(calls[n].args, p))
  {
    var path;
    j, path := BoundLine(calls, n, r, p, name);
    var step := calls[j].i + 1;
    assert Bind(r.names[(step, path)], path) in BindsOf(r, step);
    i :| 0 <= i < |BindsOf(r, step)| && BindsOf(r, step)[i] == Bind(name, path);
    forall s: nat, k: nat | k < |BindsOf(r, s)| && BindsOf(r, s)[k].name == name ensures s == step && k == i {
      NameIsUnique(r, step, path, s, k);
    }
  }

  ghost predicate TheBind(calls: seq<Call>, r: Registry, j: nat, i: nat, name: string, recorded: Option<Json>)
    requires j < |calls| && i < |BindsOf(r, calls[j].i + 1)|
  {
    var step := calls[j].i + 1;
    && BindsOf(r, step)[i].name == name
    && calls[j].body.Some? && recorded.Some?
    && EvalBind(BindsOf(r, step)[i], calls[j].body.value) == Bound(recorded.value)
    && (forall s: nat, k: nat :: k < |BindsOf(r, s)| && BindsOf(r, s)[k].name == name ==> s == step && k == i)
  }
}
