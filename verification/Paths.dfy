/** JSON values and the dot-paths that address their leaves: `flattenJson`, `setAtPath`
    and `resolveDotPath` speak the same path language. */
module Paths {
  import opened Wrappers

  /** A number is its (injective) printed form. */
  datatype Json =
    | Null | Bool(b: bool) | Num(text: string) | Str(s: string)
    | Arr(items: seq<Json>)
    | Obj(members: seq<Member>)
  datatype Member = Member(key: string, value: Json)

  predicate IsScalar(v: Json) { !v.Arr? && !v.Obj? }

  // ---- Decimal array indices ----

  function Digit(d: nat): char
    requires d < 10
  {
    "0123456789"[d]
  }

  predicate IsDigit(c: char) { '0' <= c <= '9' }

  function Decimal(n: nat): (s: string)
    ensures s != [] && forall i :: 0 <= i < |s| ==> IsDigit(s[i])
  {
    if n < 10 then [Digit(n)] else Decimal(n / 10) + [Digit(n % 10)]
  }

  function Parse(s: string): nat
    requires forall i :: 0 <= i < |s| ==> IsDigit(s[i])
  {
    if s == [] then 0
    else
      assert IsDigit(s[|s| - 1]);
      10 * Parse(s[..|s| - 1]) + (s[|s| - 1] as int - '0' as int)
  }

  lemma {:induction false} ParseDecimal(n: nat)
    ensures Parse(Decimal(n)) == n
  {
    var s := Decimal(n);
    if n >= 10 {
      ParseDecimal(n / 10);
      assert s[..|s| - 1] == Decimal(n / 10);
    } else {
      assert s[..0] == [];
    }
  }

  // ---- Dot-paths ----

  function Join(segs: seq<string>): string
    requires segs != []
  {
    if |segs| == 1 then segs[0] else segs[0] + "." + Join(segs[1..])
  }

  /** `split(".")`. */
  function Split(s: string): (segs: seq<string>)
    ensures segs != []
  {
    if s == [] then [""]
    else
      var rest := Split(s[1..]);
      if s[0] == '.' then [""] + rest else [[s[0]] + rest[0]] + rest[1..]
  }

  lemma {:induction false} SplitAtDot(a: string, b: string)
    requires '.' !in a
    ensures Split(a + "." + b) == [a] + Split(b)
  {
    if a == [] {
      assert ("." + b)[1..] == b;
      assert a + "." + b == "." + b;
    } else {
      SplitAtDot(a[1..], b);
      assert (a + "." + b)[1..] == a[1..] + "." + b;
      assert [a[0]] + a[1..] == a;
    }
  }

  lemma {:induction false} SplitPlain(a: string)
    requires '.' !in a
    ensures Split(a) == [a]
  {
    if a != [] {
      SplitPlain(a[1..]);
      assert [a[0]] + a[1..] == a;
    }
  }

  /** A dot-path of dot-free segments reads back as those segments. */
  lemma {:induction false} SplitJoin(segs: seq<string>)
    requires segs != [] && forall i :: 0 <= i < |segs| ==> '.' !in segs[i]
    ensures Split(Join(segs)) == segs
  {
    if |segs| == 1 {
      SplitPlain(segs[0]);
    } else {
      SplitJoin(segs[1..]);
      SplitAtDot(segs[0], Join(segs[1..]));
    }
  }

  lemma {:induction false} SplitDotFree(s: string)
    ensures forall i :: 0 <= i < |Split(s)| ==> '.' !in Split(s)[i]
    ensures Join(Split(s)) == s
  {
    if s != [] {
      SplitDotFree(s[1..]);
      var rest := Split(s[1..]);
      assert [s[0]] + s[1..] == s;
      if s[0] == '.' {
        assert ([""] + rest)[1..] == rest;
      } else {
        assert ([[s[0]] + rest[0]] + rest[1..])[1..] == rest[1..];
      }
    }
  }

  // ---- Well-formed values ----

  predicate IsWordChar(c: char) { 'a' <= c <= 'z' || 'A' <= c <= 'Z' || IsDigit(c) || c == '_' }

  /** `[A-Za-z0-9_]+`. */
  predicate IsWord(s: string) { s != [] && forall i :: 0 <= i < |s| ==> IsWordChar(s[i]) }

  predicate DistinctKeys(ms: seq<Member>) {
    forall i, j :: 0 <= i < j < |ms| ==> ms[i].key != ms[j].key
  }

  /** No object has a key twice: what `JSON.parse` yields. */
  predicate KeysDistinct(v: Json) {
    match v
    case Arr(items) => forall i :: 0 <= i < |items| ==> KeysDistinct(items[i])
    case Obj(ms) => DistinctKeys(ms) && forall i :: 0 <= i < |ms| ==> KeysDistinct(ms[i].value)
    case _ => true
  }

  /** A key that a dot-path can hold: not empty, without a dot, and not the prototype's. */
  predicate PlainKey(key: string) { key != "" && '.' !in key && key != "__proto__" }

  predicate PlainKeys(v: Json) {
    match v
    case Arr(items) => forall i :: 0 <= i < |items| ==> PlainKeys(items[i])
    case Obj(ms) => forall i :: 0 <= i < |ms| ==> PlainKey(ms[i].key) && PlainKeys(ms[i].value)
    case _ => true
  }

  /** Every object key is plain and occurs once. */
  predicate WellKeyed(v: Json) { KeysDistinct(v) && PlainKeys(v) }

  // ---- Leaves ----

  datatype Leaf = Leaf(segs: seq<string>, value: Json)

  function Under(seg: string, leaves: seq<Leaf>): (r: seq<Leaf>)
    ensures |r| == |leaves|
    ensures forall i :: 0 <= i < |r| ==> r[i] == Leaf([seg] + leaves[i].segs, leaves[i].value)
  {
    seq(|leaves|, i requires 0 <= i < |leaves| => Leaf([seg] + leaves[i].segs, leaves[i].value))
  }

  /** Every scalar leaf with its path, in document order. */
  function Leaves(v: Json): seq<Leaf>
    decreases v, 0
  {
    match v
    case Arr(items) => ItemLeaves(items, 0)
    case Obj(ms) => MemberLeaves(ms, 0)
    case _ => [Leaf([], v)]
  }

  function ItemLeaves(items: seq<Json>, i: nat): seq<Leaf>
    requires i <= |items|
    decreases items, |items| - i
  {
    if i == |items| then [] else Under(Decimal(i), Leaves(items[i])) + ItemLeaves(items, i + 1)
  }

  function MemberLeaves(ms: seq<Member>, i: nat): seq<Leaf>
    requires i <= |ms|
    decreases ms, |ms| - i
  {
    if i == |ms| then [] else Under(ms[i].key, Leaves(ms[i].value)) + MemberLeaves(ms, i + 1)
  }

  // ---- Reading: resolveDotPath ----

  function FindKey(ms: seq<Member>, key: string): (r: Option<nat>)
    ensures r.Some? ==> r.value < |ms| && ms[r.value].key == key
    ensures r.None? ==> forall i :: 0 <= i < |ms| ==> ms[i].key != key
  {
    if ms == [] then None
    else if ms[0].key == key then Some(0)
    else match FindKey(ms[1..], key) case Some(i) => Some(i + 1) case None => None
  }

  /** An array answers to its canonical index strings. */
  function FindIndex(n: nat, seg: string): (r: Option<nat>)
    ensures r.Some? ==> r.value < n && Decimal(r.value) == seg
    ensures r.None? ==> forall i :: 0 <= i < n ==> Decimal(i) != seg
  {
    if n == 0 then None else if Decimal(n - 1) == seg then Some(n - 1) else FindIndex(n - 1, seg)
  }

  function Child(v: Json, seg: string): Option<Json> {
    match v
    case Arr(items) => (match FindIndex(|items|, seg) case Some(i) => Some(items[i]) case None => None)
    case Obj(ms) => (match FindKey(ms, seg) case Some(i) => Some(ms[i].value) case None => None)
    case _ => None
  }

  function Resolve(v: Json, segs: seq<string>): Option<Json> {
    if segs == [] then Some(v)
    else match Child(v, segs[0])
      case Some(c) => Resolve(c, segs[1..])
      case None => None
  }

  /** What `value[seg]` gives: besides its items an array answers to `length`. */
  function Property(v: Json, seg: string): Option<Json> {
    if v.Arr? && seg == "length" then Some(Num(Decimal(|v.items|))) else Child(v, seg)
  }

  function Read(v: Json, segs: seq<string>): Option<Json>
    decreases segs
  {
    if segs == [] then Some(v)
    else match Property(v, segs[0])
      case Some(c) => Read(c, segs[1..])
      case None => None
  }

  /** Reading along a value's own keys finds what stands there. */
  lemma {:induction false} ReadOwn(v: Json, segs: seq<string>)
    requires Resolve(v, segs).Some?
    ensures Read(v, segs) == Resolve(v, segs)
    decreases segs
  {
    if segs != [] {
      if v.Arr? { assert IsDigit(segs[0][0]); }
      ReadOwn(Child(v, segs[0]).value, segs[1..]);
    }
  }

  /** The loop over `dotpath.split(".")`; `None` is undefined. */
  method ResolveDotPath(v: Json, dotpath: string) returns (r: Option<Json>)
    ensures r == Read(v, Split(dotpath))
  {
    var parts := Split(dotpath);
    r := Some(v);
    var i := 0;
    while i < |parts| && r.Some?
      invariant 0 <= i <= |parts|
      invariant Read(v, parts) == if r.Some? then Read(r.value, parts[i..]) else None
    {
      r := Property(r.value, parts[i]);
      i := i + 1;
    }
  }

  lemma ChildAt(items: seq<Json>, i: nat)
    requires i < |items|
    ensures Child(Arr(items), Decimal(i)) == Some(items[i])
  {
    var r := FindIndex(|items|, Decimal(i));
    if r.Some? { ParseDecimal(i); ParseDecimal(r.value); }
  }

  lemma MemberAt(ms: seq<Member>, i: nat)
    requires i < |ms| && DistinctKeys(ms)
    ensures Child(Obj(ms), ms[i].key) == Some(ms[i].value)
  {
  }

  predicate DotFree(segs: seq<string>) { forall i :: 0 <= i < |segs| ==> segs[i] != "" && '.' !in segs[i] }

  /** The leaf's path resolves to it, and a dot-path can hold it if the keys are plain. */
  ghost predicate Addressed(v: Json, l: Leaf) {
    && Resolve(v, l.segs) == Some(l.value) && IsScalar(l.value)
    && (PlainKeys(v) ==> DotFree(l.segs))
    && (!IsScalar(v) ==> l.segs != [])
  }

  lemma UnderAddressed(v: Json, seg: string, child: Json, l: Leaf)
    requires Child(v, seg) == Some(child) && Addressed(child, l)
    requires PlainKeys(v) ==> PlainKeys(child) && seg != "" && '.' !in seg
    ensures Addressed(v, Leaf([seg] + l.segs, l.value))
  {
    assert ([seg] + l.segs)[1..] == l.segs;
  }

  lemma ItemAddressed(items: seq<Json>, i: nat, l: Leaf)
    requires i < |items| && Addressed(items[i], l)
    ensures Addressed(Arr(items), Leaf([Decimal(i)] + l.segs, l.value))
  {
    ChildAt(items, i);
    UnderAddressed(Arr(items), Decimal(i), items[i], l);
  }

  lemma {:induction false} LeavesResolve(v: Json, k: nat)
    requires KeysDistinct(v) && k < |Leaves(v)|
    ensures Addressed(v, Leaves(v)[k])
    decreases v, 0
  {
    match v
    case Arr(items) => ItemLeavesResolve(items, 0, k);
    case Obj(ms) => MemberLeavesResolve(ms, 0, k);
    case _ =>
  }

  lemma {:induction false} ItemLeavesResolve(items: seq<Json>, i: nat, k: nat)
    requires KeysDistinct(Arr(items)) && i <= |items| && k < |ItemLeaves(items, i)|
    ensures Addressed(Arr(items), ItemLeaves(items, i)[k])
    decreases items, |items| - i
  {
    var here := Under(Decimal(i), Leaves(items[i]));
    if k < |here| {
      LeavesResolve(items[i], k);
      ItemAddressed(items, i, Leaves(items[i])[k]);
    } else {
      ItemLeavesResolve(items, i + 1, k - |here|);
    }
  }

  lemma {:induction false} MemberLeavesResolve(ms: seq<Member>, i: nat, k: nat)
    requires KeysDistinct(Obj(ms)) && i <= |ms| && k < |MemberLeaves(ms, i)|
    ensures Addressed(Obj(ms), MemberLeaves(ms, i)[k])
    decreases ms, |ms| - i
  {
    var here := Under(ms[i].key, Leaves(ms[i].value));
    if k < |here| {
      LeavesResolve(ms[i].value, k);
      MemberAt(ms, i);
      UnderAddressed(Obj(ms), ms[i].key, ms[i].value, Leaves(ms[i].value)[k]);
    } else {
      MemberLeavesResolve(ms, i + 1, k - |here|);
    }
  }

  // ---- Writing: setAtPath ----

  /** Copy along the path and replace what it addresses. */
  function SetAt(v: Json, segs: seq<string>, x: Json): Json {
    if segs == [] then x
    else match v
      case Arr(items) =>
        (match FindIndex(|items|, segs[0])
         case Some(i) => Arr(items[i := SetAt(items[i], segs[1..], x)])
         case None => v)
      case Obj(ms) =>
        (match FindKey(ms, segs[0])
         case Some(i) => Obj(ms[i := Member(ms[i].key, SetAt(ms[i].value, segs[1..], x))])
         case None => v)
      case _ => v
  }

  /** Simultaneous replacement of leaves: the meaning of a series of `setAtPath` calls. */
  function Subst(v: Json, pre: seq<string>, m: map<seq<string>, Json>): (r: Json)
    ensures v.Arr? ==> r.Arr? && |r.items| == |v.items|
    ensures v.Arr? ==> forall i :: 0 <= i < |v.items| ==> r.items[i] == Subst(v.items[i], pre + [Decimal(i)], m)
    ensures v.Obj? ==> r.Obj? && |r.members| == |v.members|
    ensures v.Obj? ==> forall i :: 0 <= i < |v.members| ==>
      r.members[i] == Member(v.members[i].key, Subst(v.members[i].value, pre + [v.members[i].key], m))
  {
    match v
    case Arr(items) =>
      Arr(seq(|items|, i requires 0 <= i < |items| => Subst(items[i], pre + [Decimal(i)], m)))
    case Obj(ms) =>
      Obj(seq(|ms|, i requires 0 <= i < |ms| => Member(ms[i].key, Subst(ms[i].value, pre + [ms[i].key], m))))
    case _ => if pre in m then m[pre] else v
  }

  lemma {:induction false} SubstAgree(v: Json, pre: seq<string>, m: map<seq<string>, Json>, n: map<seq<string>, Json>)
    requires forall p :: pre <= p ==> (p in m <==> p in n) && (p in m ==> m[p] == n[p])
    ensures Subst(v, pre, m) == Subst(v, pre, n)
  {
    match v
    case Arr(items) =>
      forall i | 0 <= i < |items|
        ensures Subst(items[i], pre + [Decimal(i)], m) == Subst(items[i], pre + [Decimal(i)], n)
      {
        SubstAgree(items[i], pre + [Decimal(i)], m, n);
      }
      assert Subst(v, pre, m).items == Subst(v, pre, n).items;
    case Obj(ms) =>
      forall i | 0 <= i < |ms|
        ensures Subst(ms[i].value, pre + [ms[i].key], m) == Subst(ms[i].value, pre + [ms[i].key], n)
      {
        SubstAgree(ms[i].value, pre + [ms[i].key], m, n);
      }
      assert Subst(v, pre, m).members == Subst(v, pre, n).members;
    case _ =>
  }

  lemma {:induction false} SubstNothing(v: Json, pre: seq<string>)
    ensures Subst(v, pre, map[]) == v
  {
    match v
    case Arr(items) =>
      forall i | 0 <= i < |items| ensures Subst(items[i], pre + [Decimal(i)], map[]) == items[i] {
        SubstNothing(items[i], pre + [Decimal(i)]);
      }
      assert Subst(v, pre, map[]).items == items;
    case Obj(ms) =>
      forall i | 0 <= i < |ms| ensures Subst(ms[i].value, pre + [ms[i].key], map[]) == ms[i].value {
        SubstNothing(ms[i].value, pre + [ms[i].key]);
      }
      assert Subst(v, pre, map[]).members == ms;
    case _ =>
  }

  lemma Diverge(pre: seq<string>, a: string, b: string, rest: seq<string>)
    requires a != b && rest != [] && rest[0] == a
    ensures !(pre + [b] <= pre + rest)
  {
    assert (pre + [b])[|pre|] == b && (pre + rest)[|pre|] == a;
  }

  /** One more `setAtPath` at a leaf is one more entry of the replacement. */
  lemma {:induction false} SetAtSubst(v: Json, pre: seq<string>, rest: seq<string>, m: map<seq<string>, Json>, x: Json)
    requires WellKeyed(v) && Resolve(v, rest).Some? && IsScalar(Resolve(v, rest).value)
    ensures SetAt(Subst(v, pre, m), rest, x) == Subst(v, pre, m[pre + rest := x])
    decreases v, 1
  {
    if rest == [] {
      assert pre + rest == pre;
    } else if v.Arr? {
      SetItemSubst(v.items, pre, rest, m, x);
    } else if v.Obj? {
      SetMemberSubst(v.members, pre, rest, m, x);
    }
  }

  lemma {:induction false} SetItemSubst(items: seq<Json>, pre: seq<string>, rest: seq<string>,
                                        m: map<seq<string>, Json>, x: Json)
    requires WellKeyed(Arr(items)) && rest != []
    requires Resolve(Arr(items), rest).Some? && IsScalar(Resolve(Arr(items), rest).value)
    ensures SetAt(Subst(Arr(items), pre, m), rest, x) == Subst(Arr(items), pre, m[pre + rest := x])
    decreases Arr(items), 0
  {
    var i := FindIndex(|items|, rest[0]).value;
    assert pre + [Decimal(i)] + rest[1..] == pre + rest;
    SetAtSubst(items[i], pre + [Decimal(i)], rest[1..], m, x);
    var a, b := Subst(Arr(items), pre, m).items, Subst(Arr(items), pre, m[pre + rest := x]).items;
    forall j | 0 <= j < |items| && j != i ensures a[j] == b[j] {
      ParseDecimal(i); ParseDecimal(j);
      OffPath(items[j], pre, Decimal(j), rest, m, x);
    }
    assert a[i := SetAt(a[i], rest[1..], x)] == b;
  }

  /** Another entry under the prefix is not touched. */
  lemma OffPath(v: Json, pre: seq<string>, seg: string, rest: seq<string>, m: map<seq<string>, Json>, x: Json)
    requires rest != [] && seg != rest[0]
    ensures Subst(v, pre + [seg], m) == Subst(v, pre + [seg], m[pre + rest := x])
  {
    Diverge(pre, rest[0], seg, rest);
    SubstAgree(v, pre + [seg], m, m[pre + rest := x]);
  }

  lemma {:induction false} SetMemberSubst(ms: seq<Member>, pre: seq<string>, rest: seq<string>,
                                          m: map<seq<string>, Json>, x: Json)
    requires WellKeyed(Obj(ms)) && rest != []
    requires Resolve(Obj(ms), rest).Some? && IsScalar(Resolve(Obj(ms), rest).value)
    ensures SetAt(Subst(Obj(ms), pre, m), rest, x) == Subst(Obj(ms), pre, m[pre + rest := x])
    decreases Obj(ms), 0
  {
    var i := FindKey(ms, rest[0]).value;
    assert pre + [ms[i].key] + rest[1..] == pre + rest;
    SetAtSubst(ms[i].value, pre + [ms[i].key], rest[1..], m, x);
    var a, b := Subst(Obj(ms), pre, m).members, Subst(Obj(ms), pre, m[pre + rest := x]).members;
    SameKeys(ms, a, rest[0]);
    forall j | 0 <= j < |ms| && j != i ensures a[j] == b[j] { OffPath(ms[j].value, pre, ms[j].key, rest, m, x); }
    assert a[i := Member(a[i].key, SetAt(a[i].value, rest[1..], x))] == b;
  }

  lemma {:induction false} SameKeys(a: seq<Member>, b: seq<Member>, key: string)
    requires |a| == |b| && forall i :: 0 <= i < |a| ==> a[i].key == b[i].key
    ensures FindKey(a, key) == FindKey(b, key)
  {
    if a != [] { SameKeys(a[1..], b[1..], key); }
  }
}
