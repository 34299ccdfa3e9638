/** Argument provenance: an index of every scalar that came back, in a batch form built in two
    passes and in a bounded live form, and the resolution of outbound arguments against it. */
module Provenance {
  import opened Wrappers
  import opened Sequences
  import opened CanonicalJson
  import opened CanonicalPrint
  import opened Commitments
  import Paths

  // ---- Leaves ----

  datatype Leaf = Leaf(path: Units, value: Scalar)

  function Child(path: Units, key: Units): Units { path + [46] + key }

  function Element(path: Units, i: nat): Units { path + [91] + Ascii(Paths.Decimal(i)) + [93] }

  function Walk(v: Value, path: Units): seq<Leaf>
    decreases v, 1
  {
    match v
    case Str(s) => [Leaf(path, Text(s))]
    case Num(t) => [Leaf(path, Number(t))]
    case Bool(b) => [Leaf(path, Flag(b))]
    case Arr(items) => WalkItems(items, path, 0)
    case Obj(ms) => WalkMembers(ms, path)
    case _ => []
  }

  function WalkItems(items: seq<Value>, path: Units, i: nat): seq<Leaf>
    decreases items, 0
  {
    if items == [] then [] else Walk(items[0], Element(path, i)) + WalkItems(items[1..], path, i + 1)
  }

  function WalkMembers(ms: seq<Entry>, path: Units): seq<Leaf>
    decreases ms, 0
  {
    if ms == [] then [] else Walk(ms[0].value, Child(path, ms[0].key)) + WalkMembers(ms[1..], path)
  }

  /** `enumerateScalarLeaves`; None when it throws on a `__proto__` key. */
  function Leaves(v: Value, prefix: Units): Option<seq<Leaf>> {
    if Guarded(v) then Some(Walk(v, prefix)) else None
  }

  // ---- Keys and normal forms ----

  /** What the runtime decides: Unicode NFC, and whether a string is a finite number's own spelling. */
  datatype Host = Host(nfc: Units -> Units, isNumber: Units -> bool)

  function Trim(s: Units): Units { TrimEnd(TrimStart(s)) }

  function TrimStart(s: Units): Units { if s != [] && Space(s[0]) then TrimStart(s[1..]) else s }

  function TrimEnd(s: Units): Units { if s != [] && Space(s[|s| - 1]) then TrimEnd(s[..|s| - 1]) else s }

  function Fold(s: Units): Units { seq(|s|, i requires 0 <= i < |s| => if 65 <= s[i] <= 90 then s[i] + 32 else s[i]) }

  function Changed(before: Units, after: Units): seq<Scalar> { if before == after then [] else [Text(after)] }

  const TRUE: Units := [116, 114, 117, 101]
  const FALSE: Units := [102, 97, 108, 115, 101]

  /** One hop each: the forms are never themselves normalized. */
  function NormalForms(h: Host, v: Scalar): seq<Scalar> {
    if !v.Text? then []
    else
      var s := v.units;
      Changed(s, Trim(s)) + Changed(s, h.nfc(s)) + Changed(s, Fold(s))
      + (if h.isNumber(s) then [Number(s)] else [])
      + (if s == TRUE then [Flag(true)] else []) + (if s == FALSE then [Flag(false)] else [])
  }

  lemma {:induction false} TrimStartAt(s: Units, i: nat)
    requires i <= |s| && Blank(s[..i]) && (i < |s| ==> !Space(s[i]))
    ensures TrimStart(s) == s[i..]
  {
    if i > 0 {
      assert s[..i][0] == s[0] && s[1..][..i - 1] == s[..i][1..];
      TrimStartAt(s[1..], i - 1);
    }
  }

  lemma {:induction false} TrimEndAt(s: Units, j: nat)
    requires j <= |s| && Blank(s[j..]) && (j > 0 ==> !Space(s[j - 1]))
    ensures TrimEnd(s) == s[..j]
  {
    if j < |s| {
      assert s[j..][|s| - 1 - j] == s[|s| - 1];
      var init := s[..|s| - 1];
      assert init[j..] == s[j..][..|s| - 1 - j];
      TrimEndAt(init, j);
      assert init[..j] == s[..j];
    }
  }

  /** What is left of s when the space around it is cut off. */
  ghost predicate CutTo(s: Units, t: Units) {
    if Blank(s) then t == [] else exists i: nat, j: nat :: CutAt(s, i, j) && t == s[i..j]
  }

  predicate CutAt(s: Units, i: nat, j: nat) {
    i < j <= |s| && Blank(s[..i]) && Blank(s[j..]) && !Space(s[i]) && !Space(s[j - 1])
  }

  lemma TrimAt(s: Units, i: nat, j: nat)
    requires CutAt(s, i, j)
    ensures Trim(s) == s[i..j]
  {
    TrimStartAt(s, i);
    assert s[i..][j - i..] == s[j..];
    TrimEndAt(s[i..], j - i);
  }

  lemma CutExists(s: Units) returns (i: nat, j: nat)
    requires !Blank(s)
    ensures CutAt(s, i, j)
  {
    i := 0;
    while Space(s[i])
      invariant i < |s| && Blank(s[..i]) && exists k :: i <= k < |s| && !Space(s[k])
      decreases |s| - i
    {
      assert s[..i + 1] == s[..i] + [s[i]];
      i := i + 1;
    }
    j := |s|;
    while Space(s[j - 1])
      invariant i < j <= |s| && Blank(s[j..])
      decreases j
    {
      assert s[j - 1..] == [s[j - 1]] + s[j..];
      j := j - 1;
    }
  }

  lemma TrimExactly(s: Units, t: Units)
    ensures Trim(s) == t <==> CutTo(s, t)
  {
    if Blank(s) {
      assert s[..|s|] == s;
      TrimStartAt(s, |s|);
    } else {
      var i, j := CutExists(s);
      TrimAt(s, i, j);
      forall k: nat, l: nat | CutAt(s, k, l) ensures s[k..l] == Trim(s) { TrimAt(s, k, l); }
    }
  }

  /** The same text with its capital letters made small. */
  predicate Lowered(s: Units, t: Units) {
    |t| == |s| && forall i :: 0 <= i < |s| ==> t[i] == if Capital(s[i]) then s[i] + 32 else s[i]
  }

  predicate Capital(u: nat) { Ascii("A")[0] <= u <= Ascii("Z")[0] }

  /** A text has these normal forms and no others: cut off its surrounding space, composed, or lowered, each
      only if that changes it, the number it spells, and the truth value it spells. */
  lemma FormsExactly(h: Host, s: Units, form: Scalar)
    ensures form in NormalForms(h, Text(s)) <==>
      (form.Text? && form.units != s && (CutTo(s, form.units) || form.units == h.nfc(s) || Lowered(s, form.units)))
      || (h.isNumber(s) && form == Number(s))
      || (form == Flag(true) && s == Ascii("true")) || (form == Flag(false) && s == Ascii("false"))
  {
    assert TRUE == Ascii("true") && FALSE == Ascii("false");
    if form.Text? { TextForms(h, s, form.units); }
  }

  lemma TextForms(h: Host, s: Units, t: Units)
    ensures Text(t) in NormalForms(h, Text(s)) <==> t != s && (CutTo(s, t) || t == h.nfc(s) || Lowered(s, t))
  {
    TrimExactly(s, t);
    assert Lowered(s, t) <==> t == Fold(s);
    assert Text(t) in NormalForms(h, Text(s)) <==>
      Text(t) in Changed(s, Trim(s)) || Text(t) in Changed(s, h.nfc(s)) || Text(t) in Changed(s, Fold(s));
  }

  /** A coordinate as it is spelled: `args.items[0].sku`. */
  lemma LeafSpelled(x: Units)
    ensures var v := Obj([Entry(Ascii("items"), Arr([Obj([Entry(Ascii("sku"), Str(x))])]))]);
      Walk(v, Ascii("args")) == [Leaf(Ascii("args.items[0].sku"), Text(x))]
  {
    var item := Obj([Entry(Ascii("sku"), Str(x))]);
    var items, sku := Ascii("args.items"), Ascii("args.items[0].sku");
    assert Child(Ascii("args"), Ascii("items")) == items;
    assert Child(Element(items, 0), Ascii("sku")) == sku by { assert Paths.Decimal(0) == "0"; }
    OneMemberWalk(Ascii("sku"), Str(x), Element(items, 0));
    OneItemWalk(item, items);
    OneMemberWalk(Ascii("items"), Arr([item]), Ascii("args"));
  }

  lemma OneMemberWalk(key: Units, v: Value, path: Units)
    ensures Walk(Obj([Entry(key, v)]), path) == Walk(v, Child(path, key))
  {
    var ms := [Entry(key, v)];
    assert ms[1..] == [] && WalkMembers(ms, path) == Walk(v, Child(path, key)) + WalkMembers([], path);
  }

  lemma OneItemWalk(v: Value, path: Units)
    ensures Walk(Arr([v]), path) == Walk(v, Element(path, 0))
  {
    var items := [v];
    assert items[1..] == [] && WalkItems(items, path, 0) == Walk(v, Element(path, 0)) + WalkItems([], path, 1);
  }

  /** The digest of the tag; the digest is taken to be injective, so the tag stands for it. */
  type Key = Units

  function KeyFor(v: Scalar): Key { TagScalar(v) }

  /** `JSON.stringify` of a scalar that is not a string. */
  function Printed(v: Scalar): Units
    requires !v.Text?
  {
    if v.Number? then v.printed else if v.on then TRUE else FALSE
  }

  /** What an exact match may compare with: the value, or the runner's own stringification of it. */
  function ExactForms(v: Scalar): seq<Scalar> { if v.Text? then [v] else [v, Text(Printed(v))] }

  // ---- Claims ----

  datatype Via = Exact | Normalized
  datatype Coordinate = Coordinate(source: Units, at: Units)
  datatype Hit = Hit(from: Coordinate, via: Via)
  datatype SourceLeaf = SourceLeaf(from: Coordinate, value: Scalar)
  datatype Claim<T> = Claim(key: Key, hit: T)

  /** The first claim of a key keeps it. */
  function First<T>(claims: seq<Claim<T>>, key: Key): Option<T> {
    if claims == [] then None
    else if claims[0].key == key then Some(claims[0].hit)
    else First(claims[1..], key)
  }

  lemma {:induction false} FirstAppend<T>(a: seq<Claim<T>>, b: seq<Claim<T>>, key: Key)
    ensures First(a + b, key) == if First(a, key).Some? then First(a, key) else First(b, key)
  {
    if a == [] {
      assert a + b == b;
    } else {
      FirstAppend(a[1..], b, key);
      assert (a + b)[0] == a[0] && (a + b)[1..] == a[1..] + b;
    }
  }

  function ClaimsOf<T>(forms: seq<Scalar>, hit: T): seq<Claim<T>> {
    seq(|forms|, i requires 0 <= i < |forms| => Claim(KeyFor(forms[i]), hit))
  }

  function ExactOf(l: SourceLeaf): seq<Claim<Coordinate>> { ClaimsOf(ExactForms(l.value), l.from) }

  function ExactClaims(ls: seq<SourceLeaf>): seq<Claim<Coordinate>> {
    if ls == [] then [] else ExactOf(ls[0]) + ExactClaims(ls[1..])
  }

  function NormalOf(h: Host, l: SourceLeaf): seq<Claim<Coordinate>> { ClaimsOf(NormalForms(h, l.value), l.from) }

  function NormalClaims(h: Host, ls: seq<SourceLeaf>): seq<Claim<Coordinate>> {
    if ls == [] then [] else NormalOf(h, ls[0]) + NormalClaims(h, ls[1..])
  }

  lemma ExactHead(ls: seq<SourceLeaf>)
    requires ls != []
    ensures ExactClaims(ls) == ExactOf(ls[0]) + ExactClaims(ls[1..])
  {
  }

  lemma {:induction false} ExactAppend(a: seq<SourceLeaf>, b: seq<SourceLeaf>)
    ensures ExactClaims(a + b) == ExactClaims(a) + ExactClaims(b)
  {
    if a == [] {
      assert a + b == b && ExactClaims(a) == [];
    } else {
      ExactAppend(a[1..], b);
      assert (a + b)[0] == a[0] && (a + b)[1..] == a[1..] + b;
      ExactHead(a + b);
      ExactHead(a);
      Assoc(ExactOf(a[0]), ExactClaims(a[1..]), ExactClaims(b));
    }
  }

  lemma NormalHead(h: Host, ls: seq<SourceLeaf>)
    requires ls != []
    ensures NormalClaims(h, ls) == NormalOf(h, ls[0]) + NormalClaims(h, ls[1..])
  {
  }

  lemma {:induction false} NormalAppend(h: Host, a: seq<SourceLeaf>, b: seq<SourceLeaf>)
    ensures NormalClaims(h, a + b) == NormalClaims(h, a) + NormalClaims(h, b)
  {
    if a == [] {
      assert a + b == b && NormalClaims(h, a) == [];
    } else {
      NormalAppend(h, a[1..], b);
      assert (a + b)[0] == a[0] && (a + b)[1..] == a[1..] + b;
      NormalHead(h, a + b);
      NormalHead(h, a);
      Assoc(NormalOf(h, a[0]), NormalClaims(h, a[1..]), NormalClaims(h, b));
    }
  }

  function Get<T>(m: map<Key, T>, key: Key): Option<T> { if key in m then Some(m[key]) else None }

  function Or<T>(a: Option<T>, b: Option<T>): Option<T> { if a.Some? then a else b }

  /** Keep what is there, then the first claim of each key. */
  method PutAll<T>(before: map<Key, T>, claims: seq<Claim<T>>) returns (m: map<Key, T>)
    ensures forall k :: Get(m, k) == Or(Get(before, k), First(claims, k))
  {
    m := before;
    for i := 0 to |claims|
      invariant forall k :: Get(m, k) == Or(Get(before, k), First(claims[..i], k))
    {
      ghost var was := m;
      if claims[i].key !in m { m := m[claims[i].key := claims[i].hit]; }
      forall k ensures Get(m, k) == Or(Get(before, k), First(claims[..i + 1], k)) {
        assert claims[..i + 1] == claims[..i] + [claims[i]];
        FirstAppend(claims[..i], [claims[i]], k);
        assert Get(was, k) == Or(Get(before, k), First(claims[..i], k));
      }
    }
    assert claims[..|claims|] == claims;
  }

  // ---- The batch index ----

  datatype Kind = Response | Var | ApprovedLiteral | ComputedDate

  /** An undefined value could not be addressed: a gap. */
  datatype Source = Source(kind: Kind, id: Units, value: Value)

  function Prefix(kind: Kind): Units {
    match kind
    case Response => Ascii("body")
    case Var => Ascii("var")
    case ApprovedLiteral => Ascii("approved-literal")
    case ComputedDate => Ascii("computed-date")
  }

  function Located(id: Units, ls: seq<Leaf>): seq<SourceLeaf> {
    seq(|ls|, i requires 0 <= i < |ls| => SourceLeaf(Coordinate(id, ls[i].path), ls[i].value))
  }

  function LeavesOf(src: Source): seq<SourceLeaf> { Located(src.id, Walk(src.value, Prefix(src.kind))) }

  function SourceLeaves(sources: seq<Source>): seq<SourceLeaf> {
    if sources == [] then [] else LeavesOf(sources[0]) + SourceLeaves(sources[1..])
  }

  function GapOf(src: Source): seq<Units> { if src.value.Undefined? then [src.id] else [] }

  function Gaps(sources: seq<Source>): seq<Units> {
    if sources == [] then [] else GapOf(sources[0]) + Gaps(sources[1..])
  }

  lemma SourceLeavesHead(sources: seq<Source>)
    requires sources != []
    ensures SourceLeaves(sources) == LeavesOf(sources[0]) + SourceLeaves(sources[1..])
  {
  }

  lemma {:induction false} LeavesAppend(a: seq<Source>, b: seq<Source>)
    ensures SourceLeaves(a + b) == SourceLeaves(a) + SourceLeaves(b)
  {
    if a == [] {
      assert a + b == b && SourceLeaves(a) == [];
    } else {
      LeavesAppend(a[1..], b);
      assert (a + b)[0] == a[0] && (a + b)[1..] == a[1..] + b;
      SourceLeavesHead(a + b);
      SourceLeavesHead(a);
      Assoc(LeavesOf(a[0]), SourceLeaves(a[1..]), SourceLeaves(b));
    }
  }

  lemma {:induction false} GapsAppend(a: seq<Source>, b: seq<Source>)
    ensures Gaps(a + b) == Gaps(a) + Gaps(b)
  {
    if a == [] {
      assert a + b == b;
    } else {
      GapsAppend(a[1..], b);
      assert (a + b)[0] == a[0] && (a + b)[1..] == a[1..] + b;
      Assoc(GapOf(a[0]), Gaps(a[1..]), Gaps(b));
    }
  }

  lemma SourcesSnoc(a: seq<Source>, src: Source)
    ensures SourceLeaves(a + [src]) == SourceLeaves(a) + LeavesOf(src)
    ensures Gaps(a + [src]) == Gaps(a) + GapOf(src)
  {
    LeavesAppend(a, [src]);
    GapsAppend(a, [src]);
  }

  predicate AllGuarded(sources: seq<Source>) { forall i :: 0 <= i < |sources| ==> Guarded(sources[i].value) }

  function Tiered(claims: seq<Claim<Coordinate>>, via: Via): seq<Claim<Hit>> {
    seq(|claims|, i requires 0 <= i < |claims| => Claim(claims[i].key, Hit(claims[i].hit, via)))
  }

  lemma {:induction false} TieredFirst(claims: seq<Claim<Coordinate>>, via: Via, key: Key)
    ensures First(Tiered(claims, via), key) ==
      if First(claims, key).None? then None else Some(Hit(First(claims, key).value, via))
  {
    if claims != [] {
      TieredFirst(claims[1..], via, key);
      assert Tiered(claims, via)[1..] == Tiered(claims[1..], via);
    }
  }

  /** Where a key is found: an exact claim by any source beats every normalized one. */
  function Found(h: Host, ls: seq<SourceLeaf>, key: Key): Option<Hit> {
    var e, n := First(ExactClaims(ls), key), First(NormalClaims(h, ls), key);
    if e.Some? then Some(Hit(e.value, Exact)) else if n.Some? then Some(Hit(n.value, Normalized)) else None
  }

  datatype SourceIndex = SourceIndex(entries: map<Key, Hit>, gaps: seq<Units>)

  ghost predicate Indexes(h: Host, index: SourceIndex, sources: seq<Source>) {
    index.gaps == Gaps(sources) && forall k :: Get(index.entries, k) == Found(h, SourceLeaves(sources), k)
  }

  ghost predicate Addressed(sources: seq<Source>, i: nat, leaves: seq<SourceLeaf>, gaps: seq<Units>)
    requires i <= |sources|
  {
    AllGuarded(sources[..i]) && gaps == Gaps(sources[..i]) && leaves == SourceLeaves(sources[..i])
  }

  lemma AddressedNext(sources: seq<Source>, i: nat, leaves: seq<SourceLeaf>, gaps: seq<Units>)
    requires i < |sources| && Addressed(sources, i, leaves, gaps) && Guarded(sources[i].value)
    ensures Addressed(sources, i + 1, leaves + LeavesOf(sources[i]), gaps + GapOf(sources[i]))
  {
    assert sources[..i + 1] == sources[..i] + [sources[i]];
    SourcesSnoc(sources[..i], sources[i]);
  }

  /** The first loop: what can be addressed, and what cannot. */
  method Address(sources: seq<Source>) returns (r: Option<(seq<SourceLeaf>, seq<Units>)>)
    ensures r.Some? <==> AllGuarded(sources)
    ensures r.Some? ==> r.value == (SourceLeaves(sources), Gaps(sources))
  {
    var gaps: seq<Units> := [];
    var leaves: seq<SourceLeaf> := [];
    for i := 0 to |sources|
      invariant Addressed(sources, i, leaves, gaps)
    {
      var src := sources[i];
      if src.value.Undefined? {
        AddressedNext(sources, i, leaves, gaps);
        gaps := gaps + [src.id];
        continue;
      }
      var found := Leaves(src.value, Prefix(src.kind));
      if found.None? { return None; }
      AddressedNext(sources, i, leaves, gaps);
      leaves := leaves + Located(src.id, found.value);
    }
    assert sources[..|sources|] == sources;
    return Some((leaves, gaps));
  }

  method BuildSourceIndex(h: Host, sources: seq<Source>) returns (r: Option<SourceIndex>)
    ensures r.Some? <==> AllGuarded(sources)
    ensures r.Some? ==> Indexes(h, r.value, sources)
  {
    var addressed := Address(sources);
    if addressed.None? { return None; }
    var (leaves, gaps) := addressed.value;
    var exact := ExactPass(leaves);
    var entries := NormalPass(h, leaves, exact);
    forall k ensures Get(entries, k) == Found(h, leaves, k) {
      TieredFirst(ExactClaims(leaves), Exact, k);
      TieredFirst(NormalClaims(h, leaves), Normalized, k);
    }
    r := Some(SourceIndex(entries, gaps));
  }

  method ExactPass(leaves: seq<SourceLeaf>) returns (m: map<Key, Hit>)
    ensures forall k :: Get(m, k) == First(Tiered(ExactClaims(leaves), Exact), k)
  {
    m := map[];
    for i := 0 to |leaves|
      invariant forall k :: Get(m, k) == First(Tiered(ExactClaims(leaves[..i]), Exact), k)
    {
      var hit := Hit(leaves[i].from, Exact);
      ghost var was := m;
      m := PutAll(m, ClaimsOf(ExactForms(leaves[i].value), hit));
      forall k ensures Get(m, k) == First(Tiered(ExactClaims(leaves[..i + 1]), Exact), k) {
        assert Get(m, k) == Or(Get(was, k), First(ClaimsOf(ExactForms(leaves[i].value), hit), k));
        TieredSnoc(ExactClaims(leaves[..i]), ExactForms(leaves[i].value), leaves[i].from, Exact, k);
        SnocClaims(Host(x => x, x => false), leaves, i);
      }
    }
    assert leaves[..|leaves|] == leaves;
  }

  method NormalPass(h: Host, leaves: seq<SourceLeaf>, exact: map<Key, Hit>) returns (m: map<Key, Hit>)
    ensures forall k :: Get(m, k) == Or(Get(exact, k), First(Tiered(NormalClaims(h, leaves), Normalized), k))
  {
    m := exact;
    for i := 0 to |leaves|
      invariant forall k :: Get(m, k) == Or(Get(exact, k), First(Tiered(NormalClaims(h, leaves[..i]), Normalized), k))
    {
      var hit := Hit(leaves[i].from, Normalized);
      ghost var was := m;
      m := PutAll(m, ClaimsOf(NormalForms(h, leaves[i].value), hit));
      forall k ensures Get(m, k) == Or(Get(exact, k), First(Tiered(NormalClaims(h, leaves[..i + 1]), Normalized), k)) {
        assert Get(m, k) == Or(Get(was, k), First(ClaimsOf(NormalForms(h, leaves[i].value), hit), k));
        TieredSnoc(NormalClaims(h, leaves[..i]), NormalForms(h, leaves[i].value), leaves[i].from, Normalized, k);
        SnocClaims(h, leaves, i);
      }
    }
    assert leaves[..|leaves|] == leaves;
  }

  lemma SnocClaims(h: Host, ls: seq<SourceLeaf>, i: nat)
    requires i < |ls|
    ensures ExactClaims(ls[..i + 1]) == ExactClaims(ls[..i]) + ExactOf(ls[i])
    ensures NormalClaims(h, ls[..i + 1]) == NormalClaims(h, ls[..i]) + NormalOf(h, ls[i])
  {
    assert ls[..i + 1] == ls[..i] + [ls[i]];
    ExactAppend(ls[..i], [ls[i]]);
    NormalAppend(h, ls[..i], [ls[i]]);
  }

  lemma TieredSnoc(claims: seq<Claim<Coordinate>>, forms: seq<Scalar>, from: Coordinate, via: Via, key: Key)
    ensures First(Tiered(claims + ClaimsOf(forms, from), via), key) ==
      Or(First(Tiered(claims, via), key), First(ClaimsOf(forms, Hit(from, via)), key))
  {
    var a, b := Tiered(claims, via), ClaimsOf(forms, Hit(from, via));
    assert Tiered(claims + ClaimsOf(forms, from), via) == a + b;
    FirstAppend(a, b, key);
  }

  // ---- Resolution ----

  /** Why an absence was not established. */
  datatype Reason =
    | Unaddressable(id: Units) | Corpus(note: Units) | Cap(capacity: nat)
    | RedactedArgument | Recorded(text: Units)

  datatype Resolution =
    | Grounded(path: Units, via: Via, from: Coordinate)
    | Authored(path: Units)
    | Unresolved(path: Units, reasons: seq<Reason>)

  function Unaddressed(gaps: seq<Units>): seq<Reason> {
    seq(|gaps|, i requires 0 <= i < |gaps| => Unaddressable(gaps[i]))
  }

  /** The first form with an entry, at the weaker tier. */
  function FormHit(forms: seq<Scalar>, at: Key -> Option<Coordinate>): Option<Hit> {
    if forms == [] then None
    else
      var from := at(KeyFor(forms[0]));
      if from.Some? then Some(Hit(from.value, Normalized)) else FormHit(forms[1..], at)
  }

  function From(hit: Option<Hit>): Option<Coordinate> { if hit.None? then None else Some(hit.value.from) }

  function Find(h: Host, ls: seq<SourceLeaf>, v: Scalar): Option<Hit> {
    Or(Found(h, ls, KeyFor(v)), FormHit(NormalForms(h, v), k => From(Found(h, ls, k))))
  }

  function Outcome(leaf: Leaf, hit: Option<Hit>, reasons: seq<Reason>): Resolution {
    if hit.Some? then Grounded(leaf.path, hit.value.via, hit.value.from)
    else if reasons != [] then Unresolved(leaf.path, reasons)
    else Authored(leaf.path)
  }

  /** `resolveArgs` over the index of the sources; None when it throws. */
  function ResolveArgs(h: Host, sources: seq<Source>, corpusGap: Units, args: Value): Option<seq<Resolution>> {
    if !Guarded(args) then None
    else
      var reasons := Unaddressed(Gaps(sources)) + (if corpusGap == [] then [] else [Corpus(corpusGap)]);
      Some(Outcomes(h, SourceLeaves(sources), reasons, Walk(args, Ascii("args"))))
  }

  function Outcomes(h: Host, ls: seq<SourceLeaf>, reasons: seq<Reason>, leaves: seq<Leaf>): seq<Resolution> {
    seq(|leaves|, i requires 0 <= i < |leaves| => Outcome(leaves[i], Find(h, ls, leaves[i].value), reasons))
  }

  // ---- Resolution over a built index ----

  /** `lookup`. */
  function FindIn(h: Host, index: SourceIndex, v: Scalar): Option<Hit> {
    Or(Get(index.entries, KeyFor(v)), FormHit(NormalForms(h, v), k => From(Get(index.entries, k))))
  }

  function ResolveIn(h: Host, index: SourceIndex, corpusGap: Units, args: Value): Option<seq<Resolution>> {
    if !Guarded(args) then None
    else
      var reasons := Unaddressed(index.gaps) + (if corpusGap == [] then [] else [Corpus(corpusGap)]);
      var leaves := Walk(args, Ascii("args"));
      Some(seq(|leaves|,
               i requires 0 <= i < |leaves| => Outcome(leaves[i], FindIn(h, index, leaves[i].value), reasons)))
  }

  lemma {:induction false} FormHitSame(h: Host, index: SourceIndex, sources: seq<Source>, forms: seq<Scalar>)
    requires Indexes(h, index, sources)
    ensures FormHit(forms, k => From(Get(index.entries, k))) ==
      FormHit(forms, k => From(Found(h, SourceLeaves(sources), k)))
  {
    if forms != [] { FormHitSame(h, index, sources, forms[1..]); }
  }

  /** Resolving over the index that was built is resolving over the sources. */
  lemma ResolvesOverSources(h: Host, index: SourceIndex, sources: seq<Source>, corpusGap: Units, args: Value)
    requires Indexes(h, index, sources)
    ensures ResolveIn(h, index, corpusGap, args) == ResolveArgs(h, sources, corpusGap, args)
  {
    var ls, leaves := SourceLeaves(sources), Walk(args, Ascii("args"));
    forall i | 0 <= i < |leaves| ensures FindIn(h, index, leaves[i].value) == Find(h, ls, leaves[i].value) {
      FindsTheSame(h, index, sources, leaves[i].value);
    }
    if Guarded(args) {
      assert ResolveIn(h, index, corpusGap, args).value == ResolveArgs(h, sources, corpusGap, args).value;
    }
  }

  lemma FindsTheSame(h: Host, index: SourceIndex, sources: seq<Source>, v: Scalar)
    requires Indexes(h, index, sources)
    ensures FindIn(h, index, v) == Find(h, SourceLeaves(sources), v)
  {
    FormHitSame(h, index, sources, NormalForms(h, v));
  }
}
