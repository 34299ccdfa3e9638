/** Filling a compiled step's holes with the recorded bind values: when does it give the
    recorded arguments back? */
module Replay {
  import opened Wrappers
  import opened Paths
  import opened Binds
  import opened Compile
  import opened CompileTheorems

  /** A string that is one hole and nothing else. */
  function HoleName(s: string): Option<string> {
    if |s| >= 4 && s[..2] == "{{" && s[|s| - 2..] == "}}" then Some(s[2..|s| - 2]) else None
  }

  /** The fill puts text into a string: a string as it is, anything else as its JSON text. */
  function Printed(v: Json): string
    requires IsScalar(v)
  {
    match v
    case Null => "null"
    case Bool(b) => if b then "true" else "false"
    case Num(t) => t
    case Str(s) => s
  }

  ghost predicate ScalarsOnly(env: map<string, Json>) { forall n :: n in env ==> IsScalar(env[n]) }

  /** What a name stands for on the day of the run: a reserved one is the date, whatever was bound. */
  function Text(n: string, env: map<string, Json>, today: string): Option<string>
    requires ScalarsOnly(env)
  {
    if Reserved(n) then Some(today) else if n in env then Some(Printed(env[n])) else None
  }

  /** The fill, on strings that are one hole or have none; it throws on a name that stands for nothing. */
  function Fill(v: Json, env: map<string, Json>, today: string): (r: Json)
    requires ScalarsOnly(env)
    ensures v.Arr? ==> r.Arr? && |r.items| == |v.items|
    ensures v.Arr? ==> forall i :: 0 <= i < |v.items| ==> r.items[i] == Fill(v.items[i], env, today)
    ensures v.Obj? ==> r.Obj? && |r.members| == |v.members|
    ensures v.Obj? ==> forall i :: 0 <= i < |v.members| ==>
      r.members[i] == Member(v.members[i].key, Fill(v.members[i].value, env, today))
  {
    match v
    case Arr(items) => Arr(seq(|items|, i requires 0 <= i < |items| => Fill(items[i], env, today)))
    case Obj(ms) => Obj(seq(|ms|, i requires 0 <= i < |ms| => Member(ms[i].key, Fill(ms[i].value, env, today))))
    case Str(s) =>
      (match HoleName(s)
       case Some(n) => (match Text(n, env, today) case Some(t) => Str(t) case None => v)
       case None => v)
    case _ => v
  }

  predicate Plain(s: string) { forall i :: 0 <= i < |s| - 1 ==> !(s[i] == '{' && s[i + 1] == '{') }

  /** No argument was itself recorded with a hole in it. */
  predicate NoHoles(v: Json) {
    match v
    case Arr(items) => forall i :: 0 <= i < |items| ==> NoHoles(items[i])
    case Obj(ms) => forall i :: 0 <= i < |ms| ==> NoHoles(ms[i].value)
    case Str(s) => Plain(s)
    case _ => true
  }

  lemma PlainHasNoHole(s: string)
    requires Plain(s)
    ensures HoleName(s).None?
  {
    if |s| >= 4 { assert s[..2][0] == s[0] && s[..2][1] == s[1]; }
  }

  ghost predicate BindsAll(names: map<seq<string>, string>, env: map<string, Json>) {
    forall p :: p in names ==> names[p] in env
  }

  ghost function Values(names: map<seq<string>, string>, env: map<string, Json>, today: string): map<seq<string>, Json>
    requires ScalarsOnly(env) && BindsAll(names, env)
  {
    map p | p in names :: Str(Text(names[p], env, today).value)
  }

  lemma {:induction false} FillSubst(v: Json, pre: seq<string>, names: map<seq<string>, string>, env: map<string, Json>,
                                     today: string)
    requires ScalarsOnly(env) && BindsAll(names, env) && NoHoles(v)
    ensures Fill(Subst(v, pre, Holes(names)), env, today) == Subst(v, pre, Values(names, env, today))
  {
    var a, b := Fill(Subst(v, pre, Holes(names)), env, today), Subst(v, pre, Values(names, env, today));
    if v.Str? { PlainHasNoHole(v.s); }
    match v
    case Arr(items) =>
      forall i | 0 <= i < |items| ensures a.items[i] == b.items[i] {
        FillSubst(items[i], pre + [Decimal(i)], names, env, today);
      }
      assert a.items == b.items;
    case Obj(ms) =>
      forall i | 0 <= i < |ms| ensures a.members[i] == b.members[i] {
        FillSubst(ms[i].value, pre + [ms[i].key], names, env, today);
      }
      assert a.members == b.members;
    case _ =>
      if pre in names {
        var hole := "{{" + names[pre] + "}}";
        assert hole[2..|hole| - 2] == names[pre] && hole[..2] == "{{" && hole[|hole| - 2..] == "}}";
      }
  }

  /** Replacing leaves by what they already are changes nothing. */
  lemma {:induction false} SubstSame(v: Json, pre: seq<string>, m: map<seq<string>, Json>)
    requires WellKeyed(v)
    requires forall rest :: pre + rest in m && Resolve(v, rest).Some? ==> m[pre + rest] == Resolve(v, rest).value
    ensures Subst(v, pre, m) == v
  {
    match v
    case Arr(items) =>
      forall i | 0 <= i < |items| ensures Subst(items[i], pre + [Decimal(i)], m) == items[i] {
        forall rest | pre + [Decimal(i)] + rest in m && Resolve(items[i], rest).Some?
          ensures m[pre + [Decimal(i)] + rest] == Resolve(items[i], rest).value
        {
          ChildAt(items, i);
          assert pre + [Decimal(i)] + rest == pre + ([Decimal(i)] + rest);
          assert ([Decimal(i)] + rest)[1..] == rest;
        }
        SubstSame(items[i], pre + [Decimal(i)], m);
      }
      assert Subst(v, pre, m).items == items;
    case Obj(ms) =>
      forall i | 0 <= i < |ms| ensures Subst(ms[i].value, pre + [ms[i].key], m) == ms[i].value {
        forall rest | pre + [ms[i].key] + rest in m && Resolve(ms[i].value, rest).Some?
          ensures m[pre + [ms[i].key] + rest] == Resolve(ms[i].value, rest).value
        {
          MemberAt(ms, i);
          assert pre + [ms[i].key] + rest == pre + ([ms[i].key] + rest);
          assert ([ms[i].key] + rest)[1..] == rest;
        }
        SubstSame(ms[i].value, pre + [ms[i].key], m);
      }
      assert Subst(v, pre, m).members == ms;
    case _ =>
      if pre in m {
        assert pre + [] == pre;
        assert Resolve(v, []) == Some(v);
        var none: seq<string> := [];
        assert pre + none in m;
      }
  }

  /** The name's text on that day is the bound value itself. */
  predicate ReadsBack(n: string, env: map<string, Json>, today: string) {
    n in env && env[n].Str? && (Reserved(n) ==> env[n].s == today)
  }

  /** Filling the compiled args gives the recorded args back if and only if every name does: a hole always
      fills to a string, and a reserved one to the date. */
  lemma ReplayExactly(args: Json, names: map<seq<string>, string>, env: map<string, Json>, today: string)
    requires WellKeyed(args) && NoHoles(args) && ScalarsOnly(env) && BindsAll(names, env)
    requires forall p :: p in names ==> Resolve(args, p) == Some(env[names[p]])
    ensures Fill(Subst(args, [], Holes(names)), env, today) == args <==>
      forall p :: p in names ==> ReadsBack(names[p], env, today)
  {
    FillSubst(args, [], names, env, today);
    if forall p :: p in names ==> ReadsBack(names[p], env, today) {
      AllReadBack(args, names, env, today);
    } else {
      var p :| p in names && !ReadsBack(names[p], env, today);
      OneDiffers(args, names, env, today, p);
    }
  }

  lemma OneDiffers(args: Json, names: map<seq<string>, string>, env: map<string, Json>, today: string, p: seq<string>)
    requires ScalarsOnly(env) && BindsAll(names, env)
    requires p in names && Resolve(args, p) == Some(env[names[p]]) && !ReadsBack(names[p], env, today)
    ensures Subst(args, [], Values(names, env, today)) != args
  {
    OneChanged(args, Values(names, env, today), p);
  }

  lemma AllReadBack(args: Json, names: map<seq<string>, string>, env: map<string, Json>, today: string)
    requires WellKeyed(args) && ScalarsOnly(env) && BindsAll(names, env)
    requires forall p :: p in names ==> Resolve(args, p) == Some(env[names[p]]) && ReadsBack(names[p], env, today)
    ensures Subst(args, [], Values(names, env, today)) == args
  {
    var m := Values(names, env, today);
    forall p | p in m && Resolve(args, p).Some? ensures m[p] == Resolve(args, p).value {
      assert p in names && ReadsBack(names[p], env, today);
    }
    SubstBack(args, m);
  }

  lemma OneChanged(args: Json, m: map<seq<string>, Json>, p: seq<string>)
    requires p in m && Resolve(args, p).Some? && IsScalar(Resolve(args, p).value) && m[p] != Resolve(args, p).value
    requires forall q :: q in m ==> IsScalar(m[q])
    ensures Subst(args, [], m) != args
  {
    assert [] + p == p;
    SubstResolve(args, [], p, m);
  }

  lemma SubstBack(args: Json, m: map<seq<string>, Json>)
    requires WellKeyed(args) && forall p :: p in m && Resolve(args, p).Some? ==> m[p] == Resolve(args, p).value
    ensures Subst(args, [], m) == args
  {
    forall rest: seq<string> | [] + rest in m && Resolve(args, rest).Some?
      ensures m[[] + rest] == Resolve(args, rest).value
    {
      assert [] + rest == rest;
    }
    SubstSame(args, [], m);
  }

  // ---- The environment of a run ----

  /** The first k bind lines of a step, evaluated in order on its result. */
  ghost function AfterLines(env: map<string, Json>, lines: seq<Bind>, body: Option<Json>, k: nat): map<string, Json>
    requires k <= |lines|
  {
    if k == 0 then env
    else
      var before := AfterLines(env, lines, body, k - 1);
      if body.Some? && EvalBind(lines[k - 1], body.value).Bound? then
        before[lines[k - 1].name := EvalBind(lines[k - 1], body.value).value]
      else before
  }

  /** What is bound when step n is filled, every earlier step having answered as recorded. */
  ghost function AfterSteps(calls: seq<Call>, r: Registry, n: nat): map<string, Json>
    requires n <= |calls|
  {
    if n == 0 then map[]
    else
      var lines := BindsOf(r, calls[n - 1].i + 1);
      AfterLines(AfterSteps(calls, r, n - 1), lines, calls[n - 1].body, |lines|)
  }

  ghost predicate ReadsScalar(b: Bind, body: Option<Json>) {
    body.Some? && EvalBind(b, body.value).Bound? && IsScalar(EvalBind(b, body.value).value)
  }

  lemma LineReadsScalar(calls: seq<Call>, r: Registry, j: nat, k: nat)
    requires WellRecorded(calls) && RegistryOk(r) && LinesBind(calls, r)
    requires j < |calls| && k < |BindsOf(r, calls[j].i + 1)|
    ensures ReadsScalar(BindsOf(r, calls[j].i + 1)[k], calls[j].body)
  {
    var b := BindsOf(r, calls[j].i + 1)[k];
    var e := (calls[j].i + 1, b.path);
    assert e in r.names && r.names[e] == b.name;
    var i: nat :| i < |calls| && LineBinds(calls[i], e, r.names[e]);
    assert i == j;
  }

  lemma {:induction false} LinesScalar(env: map<string, Json>, lines: seq<Bind>, body: Option<Json>, k: nat)
    requires k <= |lines| && ScalarsOnly(env) && forall i :: 0 <= i < |lines| ==> ReadsScalar(lines[i], body)
    ensures ScalarsOnly(AfterLines(env, lines, body, k))
  {
    if k > 0 {
      LinesScalar(env, lines, body, k - 1);
      assert ReadsScalar(lines[k - 1], body);
    }
  }

  lemma {:induction false} StepsScalar(calls: seq<Call>, r: Registry, n: nat)
    requires WellRecorded(calls) && RegistryOk(r) && LinesBind(calls, r) && n <= |calls|
    ensures ScalarsOnly(AfterSteps(calls, r, n))
  {
    if n > 0 {
      var lines := BindsOf(r, calls[n - 1].i + 1);
      StepsScalar(calls, r, n - 1);
      forall k | 0 <= k < |lines|
        ensures ReadsScalar(lines[k], calls[n - 1].body)
      {
        LineReadsScalar(calls, r, n - 1, k);
      }
      LinesScalar(AfterSteps(calls, r, n - 1), lines, calls[n - 1].body, |lines|);
    }
  }

  lemma {:induction false} LinesKeep(env: map<string, Json>, lines: seq<Bind>, body: Option<Json>, k: nat, name: string)
    requires k <= |lines| && forall i :: 0 <= i < k ==> lines[i].name != name
    ensures var t := AfterLines(env, lines, body, k);
      (name in t <==> name in env) && (name in env ==> t[name] == env[name])
  {
    if k > 0 { LinesKeep(env, lines, body, k - 1, name); }
  }

  lemma {:induction false} LinesGive(env: map<string, Json>, lines: seq<Bind>, body: Json, k: nat, i: nat, v: Json)
    requires i < k <= |lines| && EvalBind(lines[i], body) == Bound(v)
    requires forall j :: 0 <= j < |lines| && lines[j].name == lines[i].name ==> j == i
    ensures var t := AfterLines(env, lines, Some(body), k); lines[i].name in t && t[lines[i].name] == v
  {
    if i < k - 1 { LinesGive(env, lines, body, k - 1, i, v); }
  }

  /** The one line that binds a name decides what the run holds under it. */
  lemma {:induction false} StepsGive(calls: seq<Call>, r: Registry, n: nat, j: nat, i: nat, name: string, v: Json)
    requires WellRecorded(calls) && j < n <= |calls| && i < |BindsOf(r, calls[j].i + 1)|
    requires TheBind(calls, r, j, i, name, Some(v))
    ensures name in AfterSteps(calls, r, n) && AfterSteps(calls, r, n)[name] == v
  {
    var lines := BindsOf(r, calls[n - 1].i + 1);
    var env := AfterSteps(calls, r, n - 1);
    if j == n - 1 {
      LinesGive(env, lines, calls[j].body.value, |lines|, i, v);
    } else {
      StepsGive(calls, r, n - 1, j, i, name, v);
      LinesKeep(env, lines, calls[n - 1].body, |lines|, name);
    }
  }

  // ---- The compiled trace, replayed ----

  lemma RunRecovers(calls: seq<Call>, filled: seq<Json>, names: seq<map<seq<string>, string>>, r: Registry, n: nat,
                    p: seq<string>)
    requires WellRecorded(calls) && Compiled(calls, filled, names, r) && n < |calls| && p in names[n]
    ensures var env := AfterSteps(calls, r, n);
      names[n][p] in env && Resolve(calls[n].args, p) == Some(env[names[n][p]])
  {
    assert CompiledTo(calls, n, r, |Leaves(calls[n].args)|, filled[n], names[n]);
    var j, i := OneBindPerName(calls, n, r, p, names[n][p]);
    StepsGive(calls, r, n, j, i, names[n][p], Resolve(calls[n].args, p).value);
  }

  /** A number of the call's arguments was seen in an earlier result. */
  ghost predicate NumberSeen(calls: seq<Call>, n: nat)
    requires n < |calls|
  {
    exists k: nat :: NumberSeenAt(calls, n, k)
  }

  ghost predicate NumberSeenAt(calls: seq<Call>, n: nat, k: nat)
    requires n < |calls|
  {
    var leaves := Leaves(calls[n].args);
    k < |leaves| && IsCandidate(leaves[k]) && leaves[k].value.Num? && SeenBefore(calls, n, leaves[k].value)
  }

  /** A reserved name stands for the recorded value only on the day it names. */
  ghost predicate OnThatDay(args: Json, names: map<seq<string>, string>, today: string) {
    forall p :: p in names && Reserved(names[p]) ==> Resolve(args, p) == Some(Str(today))
  }

  /** Replay of one call, exactly: filled with what the bind lines of the earlier steps read out of the
      recorded results, the compiled args are the recorded ones if and only if no number among them was
      seen before and each hole that became `today` stands for that very date. */
  lemma ReplayCall(calls: seq<Call>, filled: seq<Json>, names: seq<map<seq<string>, string>>, r: Registry, n: nat,
                   today: string)
    requires WellRecorded(calls) && Compiled(calls, filled, names, r) && n < |calls| && NoHoles(calls[n].args)
    ensures ScalarsOnly(AfterSteps(calls, r, n))
    ensures Fill(filled[n], AfterSteps(calls, r, n), today) == calls[n].args <==>
      !NumberSeen(calls, n) && OnThatDay(calls[n].args, names[n], today)
  {
    var env, args := AfterSteps(calls, r, n), calls[n].args;
    StepsScalar(calls, r, n);
    forall p | p in names[n] ensures names[n][p] in env && Resolve(args, p) == Some(env[names[n][p]]) {
      RunRecovers(calls, filled, names, r, n, p);
    }
    assert CompiledTo(calls, n, r, |Leaves(args)|, filled[n], names[n]);
    ReplayExactly(args, names[n], env, today);
    NumbersAreNamed(calls, filled, names, r, n);
    if forall p :: p in names[n] ==> ReadsBack(names[n][p], env, today) {
      forall p | p in names[n] ensures Resolve(args, p).value.Str? { assert ReadsBack(names[n][p], env, today); }
    }
  }

  lemma NumbersAreNamed(calls: seq<Call>, filled: seq<Json>, names: seq<map<seq<string>, string>>, r: Registry, n: nat)
    requires WellRecorded(calls) && Compiled(calls, filled, names, r) && n < |calls|
    requires forall p :: p in names[n] ==> Resolve(calls[n].args, p).Some?
    ensures NumberSeen(calls, n) <==> exists p :: p in names[n] && !Resolve(calls[n].args, p).value.Str?
  {
    var args := calls[n].args;
    assert CompiledTo(calls, n, r, |Leaves(args)|, filled[n], names[n]);
    if k: nat :| NumberSeenAt(calls, n, k) {
      LeavesResolve(args, k);
      assert Leaves(args)[k].segs in names[n];
    }
    if p :| p in names[n] && !Resolve(args, p).value.Str? {
      var k: nat :| CandidateAt(args, k, p);
      LeavesResolve(args, k);
      assert NumberSeenAt(calls, n, k);
    }
  }

  /** The parser refuses a skill that binds a reserved name. */
  ghost predicate Parses(r: Registry) {
    forall s: nat, k :: 0 <= k < |BindsOf(r, s)| ==> !Reserved(BindsOf(r, s)[k].name)
  }

  /** It does so exactly if some bound path ends in a reserved name. */
  lemma ParsesExactly(r: Registry)
    requires RegistryOk(r) && ReservedOk(r)
    ensures Parses(r) <==> forall e :: e in r.names ==> !Reserved(LastSegment(e.1))
  {
    if e :| e in r.names && Reserved(LastSegment(e.1)) {
      var d :| d in r.names && Reserved(r.names[d]);
      var k :| 0 <= k < |BindsOf(r, d.0)| && BindsOf(r, d.0)[k] == Bind(r.names[d], d.1);
    } else {
      forall s: nat, k | 0 <= k < |BindsOf(r, s)| ensures !Reserved(BindsOf(r, s)[k].name) {
        assert (s, BindsOf(r, s)[k].path) in r.names;
      }
    }
  }

  ghost predicate CallReplays(calls: seq<Call>, filled: seq<Json>, r: Registry, n: nat, today: string)
    requires |filled| == |calls| && n < |calls|
  {
    ScalarsOnly(AfterSteps(calls, r, n)) && Fill(filled[n], AfterSteps(calls, r, n), today) == calls[n].args
  }

  ghost predicate NoNumberReused(calls: seq<Call>) { forall n :: 0 <= n < |calls| ==> !NumberSeen(calls, n) }

  /** The whole trace, exactly: its skill parses and every call replays as recorded, whatever the date, if and
      only if no bound path ends in `today` and no number was reused. */
  lemma ReplayTrace(calls: seq<Call>, filled: seq<Json>, names: seq<map<seq<string>, string>>, r: Registry,
                    today: string)
    requires WellRecorded(calls) && Compiled(calls, filled, names, r)
    requires forall n :: 0 <= n < |calls| ==> NoHoles(calls[n].args)
    ensures Parses(r) && (forall n :: 0 <= n < |calls| ==> CallReplays(calls, filled, r, n, today)) <==>
      (forall e :: e in r.names ==> !Reserved(LastSegment(e.1))) && NoNumberReused(calls)
  {
    ParsesExactly(r);
    if Parses(r) {
      forall n | 0 <= n < |calls| ensures CallReplays(calls, filled, r, n, today) <==> !NumberSeen(calls, n) {
        ReplayCall(calls, filled, names, r, n, today);
        ParsedNames(calls, filled, names, r, n);
      }
    }
  }

  lemma ParsedNames(calls: seq<Call>, filled: seq<Json>, names: seq<map<seq<string>, string>>, r: Registry, n: nat)
    requires Compiled(calls, filled, names, r) && Parses(r) && n < |calls|
    ensures forall p :: p in names[n] ==> !Reserved(names[n][p])
  {
    assert CompiledTo(calls, n, r, |Leaves(calls[n].args)|, filled[n], names[n]);
    forall p | p in names[n] ensures !Reserved(names[n][p]) {
      var j, i := OneBindPerName(calls, n, r, p, names[n][p]);
    }
  }

  // ---- The two ways to miss ----

  /** A result with the one member, and a later call that reuses its value. */
  function ReuseTrace(key: string, value: Json, arg: string): seq<Call> {
    [Call(0, Null, Some(Obj([Member(key, value)]))), Call(1, Obj([Member(arg, value)]), None)]
  }

  lemma ReuseIsSeen(key: string, value: Json, arg: string)
    requires IsWord(key) && key != "__proto__" && PlainKey(arg) && IsScalar(value) && NoHoles(value)
    ensures var calls := ReuseTrace(key, value, arg);
      && WellRecorded(calls) && NoHoles(calls[1].args) && SeenBefore(calls, 1, value)
      && Leaves(calls[1].args) == [Leaf([arg], value)] && Resolve(calls[1].args, [arg]) == Some(value)
  {
    var calls := ReuseTrace(key, value, arg);
    OneMember(key, value);
    OneMember(arg, value);
    MemberAt([Member(arg, value)], 0);
    assert [arg][1..] == [];
    assert HitAt(calls[0].body, 0, value);
    assert Contains(calls[0], value);
    forall n: nat, i: nat, j: nat, k: nat | Taken(calls, n, i, j, k)
      ensures Bindable(Leaves(calls[j].body.value)[k].segs)
    {
      assert j == 0 && Leaves(calls[0].body.value)[k].segs == [key];
    }
  }

  lemma OneMember(key: string, value: Json)
    requires IsScalar(value)
    ensures var v := Obj([Member(key, value)]);
      KeysDistinct(v) && Leaves(v) == [Leaf([key], value)] && (PlainKey(key) ==> WellKeyed(v))
  {
    assert Nest([], value) == value && Nest([key], value) == Obj([Member(key, value)]);
    NestLeaves([key], value);
    assert PlainKeys(value);
  }

  /** The later call's only argument becomes a hole. */
  lemma ReuseIsNamed(calls: seq<Call>, filled: Json, names: map<seq<string>, string>, r: Registry, arg: string,
                     value: Json)
    requires |calls| == 2 && Leaves(calls[1].args) == [Leaf([arg], value)] && CompiledTo(calls, 1, r, 1, filled, names)
    requires IsCandidate(Leaf([arg], value)) && SeenBefore(calls, 1, value)
    ensures names.Keys == {[arg]} && Recovered(calls, 1, r, [arg], names[[arg]])
  {
    assert Leaves(calls[1].args)[0].segs in names;
    forall p | p in names ensures p == [arg] {
      var k: nat :| CandidateAt(calls[1].args, k, p);
    }
  }

  lemma NumbersNeverReplay(calls: seq<Call>, filled: seq<Json>, names: seq<map<seq<string>, string>>, r: Registry,
                           today: string)
    requires WellRecorded(calls) && Compiled(calls, filled, names, r) && 1 < |calls| && NoHoles(calls[1].args)
    requires NumberSeen(calls, 1)
    ensures !CallReplays(calls, filled, r, 1, today)
  {
    ReplayCall(calls, filled, names, r, 1, today);
  }

  /** A reused number comes back as a string. */
  lemma NumberComesBackAsText(calls: seq<Call>, text: string, filled: seq<Json>, names: seq<map<seq<string>, string>>,
                              r: Registry, today: string)
    requires calls == ReuseTrace("id", Num(text), "id") && |text| >= 4 && Compiled(calls, filled, names, r)
    ensures !CallReplays(calls, filled, r, 1, today)
  {
    ReuseIsSeen("id", Num(text), "id");
    assert NumberSeenAt(calls, 1, 0);
    NumbersNeverReplay(calls, filled, names, r, today);
  }

  lemma OnlyPath(key: string, value: Json, path: string)
    requires IsScalar(value) && Read(Obj([Member(key, value)]), Split(path)).Some?
    requires IsScalar(Read(Obj([Member(key, value)]), Split(path)).value)
    ensures LastSegment(path) == key && path == key
  {
    var segs := Split(path);
    assert FindKey([Member(key, value)], segs[0]).Some?;
    assert Read(value, segs[1..]).Some?;
    assert segs == [key];
    SplitDotFree(path);
  }

  lemma LineHasCall(calls: seq<Call>, r: Registry, e: (nat, string)) returns (i: nat)
    requires LinesBind(calls, r) && e in r.names
    ensures i < |calls| && calls[i].i + 1 == e.0 && ReadsAt(calls[i].body, e.1)
  {
    i :| i < |calls| && LineBinds(calls[i], e, r.names[e]);
  }

  ghost predicate ReadsAt(body: Option<Json>, path: string) {
    body.Some? && Read(body.value, Split(path)).Some? && IsScalar(Read(body.value, Split(path)).value)
  }

  lemma OnlyToday(calls: seq<Call>, i: nat, value: Json, e: (nat, string))
    requires |calls| == 2 && calls[1].body == None && calls[0].body == Some(Obj([Member("today", value)]))
    requires IsScalar(value)
    requires i < |calls| && calls[i].i + 1 == e.0 && ReadsAt(calls[i].body, e.1)
    ensures e == (calls[0].i + 1, "today") && Reserved(LastSegment(e.1))
  {
    OnlyPath("today", value, e.1);
  }

  lemma PathIsReserved(calls: seq<Call>, r: Registry, value: Json, e: (nat, string))
    requires RegistryOk(r) && ReservedOk(r) && LinesBind(calls, r) && e in r.names
    requires |calls| == 2 && calls[1].body == None && calls[0].body == Some(Obj([Member("today", value)]))
    requires IsScalar(value)
    ensures !Parses(r) && Reserved(r.names[e])
  {
    var i := LineHasCall(calls, r, e);
    OnlyToday(calls, i, value, e);
    ParsesExactly(r);
    var d :| d in r.names && Reserved(r.names[d]);
    var j := LineHasCall(calls, r, d);
    OnlyToday(calls, j, value, d);
  }

  lemma RecoveredIsNamed(calls: seq<Call>, n: nat, r: Registry, p: seq<string>, name: string) returns (e: (nat, string))
    requires n < |calls| && Recovered(calls, n, r, p, name)
    ensures e in r.names && r.names[e] == name
  {
    var j: nat, path :| RecoveredFrom(calls, n, r, j, path, name, Resolve(calls[n].args, p).value);
    e := (calls[j].i + 1, path);
  }

  lemma OneHoleReplays(calls: seq<Call>, filled: seq<Json>, names: seq<map<seq<string>, string>>, r: Registry,
                       p: seq<string>, today: string)
    requires WellRecorded(calls) && Compiled(calls, filled, names, r) && |calls| == 2 && NoHoles(calls[1].args)
    requires names[1].Keys == {p} && Reserved(names[1][p]) && !NumberSeen(calls, 1)
    ensures CallReplays(calls, filled, r, 1, today) <==> Resolve(calls[1].args, p) == Some(Str(today))
  {
    assert OnThatDay(calls[1].args, names[1], today) <==> Resolve(calls[1].args, p) == Some(Str(today)) by {
      assert p in names[1];
    }
    ReplayCall(calls, filled, names, r, 1, today);
  }

  /** A reused member `today` becomes the reserved name: the skill does not parse, and its fill would put
      the date of the run. */
  lemma TodayIsTheDate(calls: seq<Call>, value: string, filled: seq<Json>, names: seq<map<seq<string>, string>>,
                       r: Registry, today: string)
    requires calls == ReuseTrace("today", Str(value), "day") && |value| >= 4 && Plain(value)
    requires Compiled(calls, filled, names, r)
    ensures !Parses(r) && (CallReplays(calls, filled, r, 1, today) <==> today == value)
  {
    ReuseIsSeen("today", Str(value), "day");
    TodayReplays(calls, value, filled, names, r, today);
  }

  lemma TodayReplays(calls: seq<Call>, value: string, filled: seq<Json>, names: seq<map<seq<string>, string>>,
                     r: Registry, today: string)
    requires WellRecorded(calls) && Compiled(calls, filled, names, r) && |calls| == 2 && |value| >= 4
    requires calls[0].body == Some(Obj([Member("today", Str(value))])) && calls[1].body == None
    requires NoHoles(calls[1].args) && SeenBefore(calls, 1, Str(value))
    requires Leaves(calls[1].args) == [Leaf(["day"], Str(value))] && Resolve(calls[1].args, ["day"]) == Some(Str(value))
    ensures !Parses(r) && (CallReplays(calls, filled, r, 1, today) <==> today == value)
  {
    var hole := ReusedHole(calls, filled, names, r, "day", Str(value));
    PathIsReserved(calls, r, Str(value), hole);
    NoNumberSeen(calls, value);
    OneHoleReplays(calls, filled, names, r, ["day"], today);
  }

  lemma NoNumberSeen(calls: seq<Call>, value: string)
    requires 1 < |calls| && Leaves(calls[1].args) == [Leaf(["day"], Str(value))]
    ensures !NumberSeen(calls, 1)
  {
  }

  lemma ReusedHole(calls: seq<Call>, filled: seq<Json>, names: seq<map<seq<string>, string>>, r: Registry, arg: string,
                   value: Json)
    returns (e: (nat, string))
    requires Compiled(calls, filled, names, r) && |calls| == 2 && Leaves(calls[1].args) == [Leaf([arg], value)]
    requires IsCandidate(Leaf([arg], value)) && SeenBefore(calls, 1, value)
    ensures names[1].Keys == {[arg]} && e in r.names && r.names[e] == names[1][[arg]]
  {
    assert CompiledTo(calls, 1, r, |Leaves(calls[1].args)|, filled[1], names[1]);
    ReuseIsNamed(calls, filled[1], names[1], r, arg, value);
    e := RecoveredIsNamed(calls, 1, r, [arg], names[1][[arg]]);
  }
}
