/** Which leaves of a call's arguments a compiled trace turns into holes, told from the recorded calls alone. */
module CompileTheorems {
  import opened Wrappers
  import opened Paths
  import opened Binds
  import opened Compile

  // ---- Every scalar is a leaf ----

  lemma {:induction false} ItemLeafAt(items: seq<Json>, from: nat, i: nat, k: nat) returns (at: nat)
    requires from <= i < |items| && k < |Leaves(items[i])|
    ensures at < |ItemLeaves(items, from)|
    ensures ItemLeaves(items, from)[at] == Leaf([Decimal(i)] + Leaves(items[i])[k].segs, Leaves(items[i])[k].value)
    decreases i - from
  {
    if from == i {
      at := k;
    } else {
      var rest := ItemLeafAt(items, from + 1, i, k);
      var here := Under(Decimal(from), Leaves(items[from]));
      assert ItemLeaves(items, from) == here + ItemLeaves(items, from + 1);
      at := |here| + rest;
    }
  }

  lemma {:induction false} MemberLeafAt(ms: seq<Member>, from: nat, i: nat, k: nat) returns (at: nat)
    requires from <= i < |ms| && k < |Leaves(ms[i].value)|
    ensures at < |MemberLeaves(ms, from)|
    ensures MemberLeaves(ms, from)[at] ==
      Leaf([ms[i].key] + Leaves(ms[i].value)[k].segs, Leaves(ms[i].value)[k].value)
    decreases i - from
  {
    if from == i {
      at := k;
    } else {
      var rest := MemberLeafAt(ms, from + 1, i, k);
      var here := Under(ms[from].key, Leaves(ms[from].value));
      assert MemberLeaves(ms, from) == here + MemberLeaves(ms, from + 1);
      at := |here| + rest;
    }
  }

  /** Whatever scalar a path resolves to is among the leaves, under that path. */
  lemma {:induction false} LeafFound(v: Json, segs: seq<string>) returns (at: nat)
    requires Resolve(v, segs).Some? && IsScalar(Resolve(v, segs).value)
    ensures at < |Leaves(v)| && Leaves(v)[at] == Leaf(segs, Resolve(v, segs).value)
    decreases segs
  {
    if segs == [] {
      at := 0;
    } else {
      assert segs == [segs[0]] + segs[1..];
      match v
      case Arr(items) =>
        var i := FindIndex(|items|, segs[0]).value;
        at := LeafFound(items[i], segs[1..]);
        at := ItemLeafAt(items, 0, i, at);
      case Obj(ms) =>
        var i := FindKey(ms, segs[0]).value;
        at := LeafFound(ms[i].value, segs[1..]);
        at := MemberLeafAt(ms, 0, i, at);
    }
  }

  // ---- Replaced leaves, and the others ----

  /** The same paths lead to scalars, and nothing else changes than the leaves that are replaced. */
  ghost predicate Replaced(before: Option<Json>, after: Option<Json>, p: seq<string>, m: map<seq<string>, Json>) {
    if before.None? then after.None?
    else if IsScalar(before.value) then after == Some(if p in m then m[p] else before.value)
    else after.Some? && !IsScalar(after.value)
  }

  lemma {:induction false} SubstResolve(v: Json, pre: seq<string>, rest: seq<string>, m: map<seq<string>, Json>)
    requires forall p :: p in m ==> IsScalar(m[p])
    ensures Replaced(Resolve(v, rest), Resolve(Subst(v, pre, m), rest), pre + rest, m)
  {
    if rest == [] {
      assert pre + rest == pre;
    } else {
      if !IsScalar(v) { SubstChild(v, pre, rest[0], m); }
      if Child(v, rest[0]).Some? {
        assert pre + [rest[0]] + rest[1..] == pre + rest;
        SubstResolve(Child(v, rest[0]).value, pre + [rest[0]], rest[1..], m);
      }
    }
  }

  /** Replacing below a value is replacing below its children. */
  lemma SubstChild(v: Json, pre: seq<string>, seg: string, m: map<seq<string>, Json>)
    requires !IsScalar(v)
    ensures Child(Subst(v, pre, m), seg) ==
      if Child(v, seg).Some? then Some(Subst(Child(v, seg).value, pre + [seg], m)) else None
  {
    var w := Subst(v, pre, m);
    if v.Arr? {
      assert w.Arr? && |w.items| == |v.items|;
    } else {
      SameKeys(v.members, w.members, seg);
    }
  }

  // ---- Holes, exactly ----

  /** Some earlier result holds the value, below its root. */
  ghost predicate HeldBefore(calls: seq<Call>, n: nat, value: Json)
    requires n < |calls|
  {
    exists j: nat, q :: j < n && HeldAt(calls[j].body, q, value)
  }

  ghost predicate HeldAt(body: Option<Json>, q: seq<string>, value: Json) {
    body.Some? && FlatPath(q) != "" && Resolve(body.value, q) == Some(value)
  }

  lemma HeldIsSeen(calls: seq<Call>, n: nat, value: Json)
    requires WellRecorded(calls) && n < |calls| && IsScalar(value)
    ensures SeenBefore(calls, n, value) <==> HeldBefore(calls, n, value)
  {
    if SeenBefore(calls, n, value) {
      var j: nat :| j < n && Contains(calls[j], value);
      var k: nat :| HitAt(calls[j].body, k, value);
      LeavesResolve(calls[j].body.value, k);
      assert HeldAt(calls[j].body, Leaves(calls[j].body.value)[k].segs, value);
    }
    if j: nat, q :| j < n && HeldAt(calls[j].body, q, value) {
      var k := LeafFound(calls[j].body.value, q);
      assert HitAt(calls[j].body, k, value);
      assert Contains(calls[j], value);
    }
  }

  /** A string of at least four code units, or a number printed with at least four characters. */
  predicate LongEnough(v: Json) {
    match v
    case Str(s) => 4 <= |s|
    case Num(text) => 4 <= |text|
    case _ => false
  }

  lemma NamedLeaf(calls: seq<Call>, n: nat, r: Registry, filled: Json, names: map<seq<string>, string>,
                  p: seq<string>) returns (k: nat)
    requires n < |calls| && p in names && CompiledTo(calls, n, r, |Leaves(calls[n].args)|, filled, names)
    ensures CandidateAt(calls[n].args, k, p)
    ensures Resolve(calls[n].args, p).Some? && SeenBefore(calls, n, Resolve(calls[n].args, p).value)
  {
    assert Recovered(calls, n, r, p, names[p]);
    k :| CandidateAt(calls[n].args, k, p);
  }

  lemma HoleIsLong(calls: seq<Call>, n: nat, r: Registry, filled: Json, names: map<seq<string>, string>,
                   p: seq<string>)
    requires WellRecorded(calls) && n < |calls| && p in names
    requires CompiledTo(calls, n, r, |Leaves(calls[n].args)|, filled, names)
    ensures p != [] && Resolve(calls[n].args, p).Some?
    ensures var value := Resolve(calls[n].args, p).value; LongEnough(value) && HeldBefore(calls, n, value)
  {
    var k := NamedLeaf(calls, n, r, filled, names, p);
    LeavesResolve(calls[n].args, k);
    HeldIsSeen(calls, n, Resolve(calls[n].args, p).value);
  }

  lemma LongIsHole(calls: seq<Call>, n: nat, r: Registry, filled: Json, names: map<seq<string>, string>,
                   p: seq<string>, value: Json)
    requires WellRecorded(calls) && n < |calls| && p != [] && Resolve(calls[n].args, p) == Some(value)
    requires LongEnough(value) && HeldBefore(calls, n, value)
    requires CompiledTo(calls, n, r, |Leaves(calls[n].args)|, filled, names)
    ensures p in names
  {
    var k := LeafFound(calls[n].args, p);
    HeldIsSeen(calls, n, value);
  }

  /** A path of a call's arguments becomes a hole exactly if it is not the root, a long enough string or number
      was recorded there, and an earlier result holds that very value. */
  lemma HolesExactly(calls: seq<Call>, filled: seq<Json>, names: seq<map<seq<string>, string>>, r: Registry, n: nat,
                     p: seq<string>)
    requires WellRecorded(calls) && Compiled(calls, filled, names, r) && n < |calls|
    ensures var recorded := Resolve(calls[n].args, p);
      p in names[n] <==>
        p != [] && recorded.Some? && LongEnough(recorded.value) && HeldBefore(calls, n, recorded.value)
  {
    assert CompiledTo(calls, n, r, |Leaves(calls[n].args)|, filled[n], names[n]);
    if p in names[n] {
      HoleIsLong(calls, n, r, filled[n], names[n], p);
    } else if p != [] && Resolve(calls[n].args, p).Some? {
      var value := Resolve(calls[n].args, p).value;
      if LongEnough(value) && HeldBefore(calls, n, value) {
        LongIsHole(calls, n, r, filled[n], names[n], p, value);
      }
    }
  }

  /** Where a hole gets its value: from call j's result, at its k-th leaf. */
  ghost predicate TakenFrom(calls: seq<Call>, n: nat, value: Json, j: nat, k: nat) {
    && j < n < |calls| && calls[j].body.Some? && k < |Leaves(calls[j].body.value)|
    && HeldAt(calls[j].body, Leaves(calls[j].body.value)[k].segs, value)
    && (forall i, q :: j < i < n ==> !HeldAt(calls[i].body, q, value))
    && (forall i :: 0 <= i < k ==> !HeldAt(calls[j].body, Leaves(calls[j].body.value)[i].segs, value))
  }

  lemma SourceIsTaken(calls: seq<Call>, n: nat, value: Json, j: nat, k: nat)
    requires WellRecorded(calls) && n < |calls| && IsScalar(value) && SourceAt(calls, n, value, j, k)
    ensures TakenFrom(calls, n, value, j, k)
  {
    var body := calls[j].body;
    LeavesResolve(body.value, k);
    forall i, q | j < i < n ensures !HeldAt(calls[i].body, q, value) {
      if HeldAt(calls[i].body, q, value) {
        var at := LeafFound(calls[i].body.value, q);
        assert HitAt(calls[i].body, at, value);
        assert Contains(calls[i], value);
      }
    }
    forall i: nat | i < k ensures !HeldAt(body, Leaves(body.value)[i].segs, value) {
      LeavesResolve(body.value, i);
      assert !HitAt(body, i, value);
    }
  }

  /** Each hole carries the name of one source: the most recent earlier result that holds the value, at the first
      leaf in document order where it does. */
  lemma SourceExactly(calls: seq<Call>, filled: seq<Json>, names: seq<map<seq<string>, string>>, r: Registry, n: nat,
                      p: seq<string>)
    returns (j: nat, k: nat)
    requires WellRecorded(calls) && Compiled(calls, filled, names, r) && n < |calls| && p in names[n]
    ensures Resolve(calls[n].args, p).Some? && TakenFrom(calls, n, Resolve(calls[n].args, p).value, j, k)
    ensures var source := (calls[j].i + 1, FlatPath(Leaves(calls[j].body.value)[k].segs));
      source in r.names && r.names[source] == names[n][p]
  {
    assert CompiledTo(calls, n, r, |Leaves(calls[n].args)|, filled[n], names[n]);
    assert Recovered(calls, n, r, p, names[n][p]);
    var value := Resolve(calls[n].args, p).value;
    var i: nat, path :| RecoveredFrom(calls, n, r, i, path, names[n][p], value);
    j := i;
    k :| SourceAt(calls, n, value, j, k) && FlatPath(Leaves(calls[j].body.value)[k].segs) == path;
    SourceIsTaken(calls, n, value, j, k);
  }

  /** And the rest of the compiled arguments is as recorded: the same paths, each hole at its own, every other
      leaf the recorded one. */
  lemma LeavesExactly(calls: seq<Call>, filled: seq<Json>, names: seq<map<seq<string>, string>>, r: Registry, n: nat,
                      p: seq<string>)
    requires Compiled(calls, filled, names, r) && n < |calls|
    ensures Replaced(Resolve(calls[n].args, p), Resolve(filled[n], p), p, Holes(names[n]))
  {
    assert CompiledTo(calls, n, r, |Leaves(calls[n].args)|, filled[n], names[n]);
    SubstResolve(calls[n].args, [], p, Holes(names[n]));
    assert [] + p == p;
  }

  // ---- Names, spelled out ----

  /** A path is named after its last segment, an array element after its list and its index; a name that would
      begin with a digit gets a prefix. */
  lemma NamesSpelled(list: string, key: string, digits: string)
    requires '.' !in list && '.' !in key && '.' !in digits && IsIdentifier(list) && IsIdentifier(key)
    requires AllDigits(digits)
    ensures BaseName(key) == key && BaseName(list + "." + key) == key
    ensures BaseName(digits) == "v_" + digits
    ensures BaseName(list + "." + digits) == list + "_" + digits
  {
    SplitPlain(key);
    SplitPlain(digits);
    SplitAtDot(list, key);
    SplitAtDot(list, digits);
    var element := list + "_" + digits;
    assert forall i :: 0 <= i < |element| ==> IsWordChar(element[i]);
    assert ReplaceNonWord(digits) == digits;
  }
}
