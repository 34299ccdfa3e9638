/** Bind lines `name = json.<path>`: how a recorded leaf is spelled, and when the line reads it back. */
module Binds {
  import opened Wrappers
  import opened Paths

  predicate IsIdentifier(s: string) { IsWord(s) && !IsDigit(s[0]) }

  predicate IsPathChar(c: char) { IsWordChar(c) || c == '.' }

  predicate PathChars(s: string) { forall i :: 0 <= i < |s| ==> IsPathChar(s[i]) }

  datatype Bind = Bind(name: string, path: string)

  datatype BindResult = BindParseError | PathNotFound | Bound(value: Json)

  function Looked(r: Option<Json>): BindResult {
    match r
    case Some(v) => Bound(v)
    case None => PathNotFound
  }

  /** The `name = json.<dotpath>` form. */
  function EvalBind(b: Bind, body: Json): BindResult {
    if !IsIdentifier(b.name) || b.path == [] || !PathChars(b.path) then BindParseError
    else Looked(Read(body, Split(b.path)))
  }

  /** Names of the fill's own: a skill that binds one is refused when it is parsed.  The other
      reserved names, `today` with an offset, are no identifiers. */
  predicate Reserved(name: string) { name == "today" }

  /** The path that flattening builds key by key: a key only follows a dot once there is something before it. */
  function FlatPath(segs: seq<string>): string {
    if segs == [] then "" else if segs[0] == "" then FlatPath(segs[1..]) else Join(segs)
  }

  /** Every key can be spelled in a bind line, and the first is not empty. */
  predicate Spellable(segs: seq<string>) {
    segs != [] && segs[0] != "" && forall i :: 0 <= i < |segs| ==> PathChars(segs[i]) && '.' !in segs[i]
  }

  /** Spellable, and the name made from it can be assigned. */
  predicate Bindable(segs: seq<string>) { Spellable(segs) && segs[|segs| - 1] != "__proto__" }

  lemma {:induction false} JoinSpells(segs: seq<string>)
    requires segs != []
    ensures PathChars(Join(segs)) <==> forall i :: 0 <= i < |segs| ==> PathChars(segs[i])
  {
    if |segs| > 1 {
      var rest := segs[1..];
      JoinSpells(rest);
      PathCharsCat(segs[0] + ".", Join(rest));
      PathCharsCat(segs[0], ".");
      assert forall i :: 0 < i < |segs| ==> segs[i] == rest[i - 1];
      assert forall i :: 0 <= i < |rest| ==> rest[i] == segs[i + 1];
    }
  }

  lemma PathCharsCat(a: string, b: string)
    ensures PathChars(a + b) <==> PathChars(a) && PathChars(b)
  {
    assert forall i :: 0 <= i < |a| ==> a[i] == (a + b)[i];
    assert forall i :: 0 <= i < |b| ==> b[i] == (a + b)[i + |a|];
  }

  lemma {:induction false} FlatSpells(segs: seq<string>)
    ensures PathChars(FlatPath(segs)) <==> forall i :: 0 <= i < |segs| ==> PathChars(segs[i])
  {
    if segs != [] {
      if segs[0] == "" {
        FlatSpells(segs[1..]);
        assert forall i :: 0 < i < |segs| ==> segs[i] == segs[1..][i - 1];
      } else {
        JoinSpells(segs);
      }
    }
  }

  lemma {:induction false} FlatIsShort(segs: seq<string>)
    requires segs != []
    ensures |FlatPath(segs)| <= |Join(segs)|
  {
    if segs[0] == "" && |segs| > 1 { FlatIsShort(segs[1..]); }
  }

  /** The path splits into the leaf's own keys exactly if no key holds a dot and the first is not empty. */
  lemma SplitFlat(segs: seq<string>)
    requires FlatPath(segs) != ""
    ensures Split(FlatPath(segs)) == segs <==> segs[0] != "" && forall i :: 0 <= i < |segs| ==> '.' !in segs[i]
  {
    var path := FlatPath(segs);
    if segs[0] != "" && forall i :: 0 <= i < |segs| ==> '.' !in segs[i] { SplitJoin(segs); }
    if Split(path) == segs {
      SplitDotFree(path);
      if segs[0] == "" { FlatIsShort(segs[1..]); }
    }
  }

  /** The bind made from a leaf, exactly: it is no bind line if some key on the leaf's path holds a
      character other than word characters and dots; it gives the leaf if every key is spellable;
      and otherwise it reads along other keys than the leaf's. */
  lemma HitExactly(body: Json, k: nat, name: string)
    requires KeysDistinct(body) && k < |Leaves(body)| && IsIdentifier(name)
    requires FlatPath(Leaves(body)[k].segs) != ""
    ensures var l := Leaves(body)[k]; var path := FlatPath(l.segs); var r := EvalBind(Bind(name, path), body);
      && (r == BindParseError <==> exists i :: 0 <= i < |l.segs| && !PathChars(l.segs[i]))
      && (Spellable(l.segs) ==> r == Bound(l.value))
      && (r != BindParseError && !Spellable(l.segs) ==> Split(path) != l.segs && r == Looked(Read(body, Split(path))))
  {
    var l := Leaves(body)[k];
    FlatSpells(l.segs);
    SplitFlat(l.segs);
    LeavesResolve(body, k);
    ReadOwn(body, l.segs);
  }

  ghost predicate GivesLeaf(body: Json, k: nat, name: string, segs: seq<string>) {
    KeysDistinct(body) && k < |Leaves(body)| && Leaves(body)[k].segs == segs ==>
      EvalBind(Bind(name, FlatPath(segs)), body) == Bound(Leaves(body)[k].value)
  }

  /** One leaf under a chain of keys. */
  function Nest(segs: seq<string>, v: Json): Json {
    if segs == [] then v else Obj([Member(segs[0], Nest(segs[1..], v))])
  }

  lemma {:induction false} NestLeaves(segs: seq<string>, v: Json)
    requires IsScalar(v)
    ensures Leaves(Nest(segs, v)) == [Leaf(segs, v)] && KeysDistinct(Nest(segs, v))
  {
    if segs != [] {
      var ms := Nest(segs, v).members;
      NestLeaves(segs[1..], v);
      var here := Under(segs[0], Leaves(ms[0].value));
      assert [segs[0]] + segs[1..] == segs;
      assert MemberLeaves(ms, 1) == [] && MemberLeaves(ms, 0) == here + MemberLeaves(ms, 1) == here;
    }
  }

  lemma {:induction false} NestRead(segs: seq<string>, v: Json, keys: seq<string>)
    requires IsScalar(v) && keys != segs
    ensures Read(Nest(segs, v), keys) != Some(v)
    decreases segs
  {
    if segs != [] && keys != [] {
      if keys[0] == segs[0] {
        assert keys == [keys[0]] + keys[1..] && segs == [segs[0]] + segs[1..];
        NestRead(segs[1..], v, keys[1..]);
      } else {
        assert FindKey(Nest(segs, v).members, keys[0]).None?;
      }
    }
  }

  /** By its keys alone: a leaf's bind gives the leaf in every result that has one there, if and only
      if its keys are spellable. */
  lemma SpellableExactly(segs: seq<string>, name: string)
    requires FlatPath(segs) != "" && IsIdentifier(name)
    ensures Spellable(segs) <==> forall body, k: nat :: GivesLeaf(body, k, name, segs)
  {
    if Spellable(segs) {
      forall body, k: nat | KeysDistinct(body) && k < |Leaves(body)| && Leaves(body)[k].segs == segs
        ensures GivesLeaf(body, k, name, segs)
      {
        HitExactly(body, k, name);
      }
    } else {
      var body := Nest(segs, Null);
      NestLeaves(segs, Null);
      HitExactly(body, 0, name);
      if Split(FlatPath(segs)) != segs { NestRead(segs, Null, Split(FlatPath(segs))); }
      assert !GivesLeaf(body, 0, name, segs);
    }
  }

  // ---- The three ways to miss ----

  lemma DashIsNoBind(s: string, name: string)
    ensures var body := Obj([Member("foo-bar", Str(s))]);
      && Leaves(body) == [Leaf(["foo-bar"], Str(s))]
      && EvalBind(Bind(name, FlatPath(["foo-bar"])), body) == BindParseError
  {
    assert Nest([], Str(s)) == Str(s) && Nest(["foo-bar"], Str(s)) == Obj([Member("foo-bar", Str(s))]);
    NestLeaves(["foo-bar"], Str(s));
    assert !IsPathChar("foo-bar"[3]);
  }

  lemma SplitsAtDot()
    ensures FlatPath(["a.b"]) == "a.b" && PathChars("a.b") && Split("a.b") == ["a", "b"]
  {
    SplitPlain("b");
    SplitAtDot("a", "b");
    assert "a.b" == "a" + "." + "b";
  }

  lemma DottedKeyIsLost(s: string, name: string)
    requires IsIdentifier(name)
    ensures var body := Obj([Member("a.b", Str(s))]);
      Leaves(body) == [Leaf(["a.b"], Str(s))] && EvalBind(Bind(name, FlatPath(["a.b"])), body) == PathNotFound
  {
    assert Nest([], Str(s)) == Str(s) && Nest(["a.b"], Str(s)) == Obj([Member("a.b", Str(s))]);
    NestLeaves(["a.b"], Str(s));
    SplitsAtDot();
    assert FindKey([Member("a.b", Str(s))], "a").None?;
  }

  lemma TwoLeaves(s: string, t: string)
    ensures Leaves(Obj([Member("a.b", Str(s)), Member("a", Obj([Member("b", Str(t))]))])) ==
      [Leaf(["a.b"], Str(s)), Leaf(["a", "b"], Str(t))]
  {
    var inner := Obj([Member("b", Str(t))]);
    var ms := [Member("a.b", Str(s)), Member("a", inner)];
    assert Nest([], Str(t)) == Str(t) && Nest(["b"], Str(t)) == inner;
    NestLeaves(["b"], Str(t));
    var under := Under("a", Leaves(inner));
    assert under[0].segs == ["a"] + ["b"] == ["a", "b"];
    assert MemberLeaves(ms, 1) == under + MemberLeaves(ms, 2) == under == [Leaf(["a", "b"], Str(t))];
    var first := Under("a.b", [Leaf([], Str(s))]);
    assert first[0].segs == ["a.b"];
    assert Leaves(ms[0].value) == [Leaf([], Str(s))];
    assert MemberLeaves(ms, 0) == first + MemberLeaves(ms, 1);
  }

  /** The silent case: the line binds another leaf's value. */
  lemma DottedKeyReadsAnother(s: string, t: string, name: string)
    requires IsIdentifier(name)
    ensures var body := Obj([Member("a.b", Str(s)), Member("a", Obj([Member("b", Str(t))]))]);
      && Leaves(body) == [Leaf(["a.b"], Str(s)), Leaf(["a", "b"], Str(t))]
      && EvalBind(Bind(name, FlatPath(["a.b"])), body) == Bound(Str(t))
  {
    TwoLeaves(s, t);
    SplitsAtDot();
    var inner := [Member("b", Str(t))];
    var ms := [Member("a.b", Str(s)), Member("a", Obj(inner))];
    MemberAt(ms, 1);
    MemberAt(inner, 0);
    assert Read(Obj(inner), ["b"]) == Some(Str(t)) by { assert ["b"][1..] == []; }
    assert ["a", "b"][1..] == ["b"];
  }
}
