/** `canonicalJson`: drop undefined members, fix the key order, print as JSON
    (sections 4, 5 and 7 of RFC 8259).  Canonical forms are equal exactly when the values are,
    up to key order and the members the rebuild drops. */
module CanonicalJson {
  import opened Wrappers

  // ---- Values ----

  /** A JavaScript string is a sequence of UTF-16 code units. */
  type Units = seq<nat>

  datatype Value =
    | Undefined | Null | Bool(b: bool)
    | Num(text: Units)   // by its printed form, which determines it
    | Str(units: Units)
    | Arr(items: seq<Value>)
    | Obj(members: seq<Entry>)
  datatype Entry = Entry(key: Units, value: Value)

  predicate IsUnits(s: Units) { forall i :: 0 <= i < |s| ==> s[i] < 0x10000 }

  predicate IsNumberUnit(u: nat) { 48 <= u <= 57 || u == 43 || u == 45 || u == 46 || u == 101 || u == 69 }

  predicate IsNumberText(s: Units) {
    s != [] && (48 <= s[0] <= 57 || s[0] == 45) && forall i :: 0 <= i < |s| ==> IsNumberUnit(s[i])
  }

  predicate DistinctKeys(ms: seq<Entry>) { forall i, j :: 0 <= i < j < |ms| ==> ms[i].key != ms[j].key }

  /** What the runtime can hold: code units below 2^16, printable numbers, own keys once. */
  predicate Proper(v: Value) {
    match v
    case Num(t) => IsNumberText(t)
    case Str(s) => IsUnits(s)
    case Arr(items) => forall i :: 0 <= i < |items| ==> Proper(items[i])
    case Obj(ms) => DistinctKeys(ms) && forall i :: 0 <= i < |ms| ==> IsUnits(ms[i].key) && Proper(ms[i].value)
    case _ => true
  }

  function Lookup(ms: seq<Entry>, key: Units): (r: Option<Value>)
    ensures r.Some? ==> exists i :: 0 <= i < |ms| && ms[i] == Entry(key, r.value)
    ensures r.None? ==> forall i :: 0 <= i < |ms| ==> ms[i].key != key
  {
    if ms == [] then None
    else if ms[0].key == key then assert ms[0] == Entry(key, ms[0].value); Some(ms[0].value)
    else
      var r := Lookup(ms[1..], key);
      assert r.Some? ==> exists i :: 0 <= i < |ms[1..]| && ms[1..][i] == ms[i + 1] == Entry(key, r.value);
      r
  }

  // ---- Key order ----

  predicate LexLess(a: Units, b: Units) {
    if b == [] then false
    else if a == [] then true
    else a[0] < b[0] || (a[0] == b[0] && LexLess(a[1..], b[1..]))
  }

  predicate AllDigits(s: Units) { forall i :: 0 <= i < |s| ==> 48 <= s[i] <= 57 }

  /** 4294967295, the first number that is no array index. */
  const LIMIT: Units := [52, 50, 57, 52, 57, 54, 55, 50, 57, 53]

  /** A canonical array index: below 2^32 - 1, no leading zero. */
  predicate IsIndex(s: Units) {
    s != [] && AllDigits(s) && (s[0] == 48 ==> |s| == 1) &&
    (|s| < 10 || (|s| == 10 && LexLess(s, LIMIT)))
  }

  /** Keys are sorted by code units and re-inserted; the engine then lists index keys
      first, in numeric order. */
  predicate KeyLess(a: Units, b: Units) {
    if IsIndex(a) != IsIndex(b) then IsIndex(a)
    else if IsIndex(a) && |a| != |b| then |a| < |b|
    else LexLess(a, b)
  }

  lemma {:induction false} LexTotal(a: Units, b: Units)
    ensures a != b ==> (LexLess(a, b) <==> !LexLess(b, a))
    ensures !LexLess(a, a)
  {
    if a != [] && b != [] {
      LexTotal(a[1..], b[1..]);
      assert a == [a[0]] + a[1..] && b == [b[0]] + b[1..];
    }
    if a != [] { LexTotal(a[1..], a[1..]); }
  }

  lemma {:induction false} LexTransitive(a: Units, b: Units, c: Units)
    requires LexLess(a, b) && LexLess(b, c)
    ensures LexLess(a, c)
  {
    if a != [] && a[0] == b[0] == c[0] { LexTransitive(a[1..], b[1..], c[1..]); }
  }

  /** A strict total order. */
  lemma {:induction false} KeyOrder(a: Units, b: Units, c: Units)
    ensures !KeyLess(a, a)
    ensures a != b ==> (KeyLess(a, b) <==> !KeyLess(b, a))
    ensures KeyLess(a, b) && KeyLess(b, c) ==> KeyLess(a, c)
  {
    LexTotal(a, a);
    LexTotal(a, b);
    if LexLess(a, b) && LexLess(b, c) { LexTransitive(a, b, c); }
  }

  // ---- Canonical form ----

  /** The key whose assignment goes to the prototype instead of a member. */
  const PROTO: Units := [95, 95, 112, 114, 111, 116, 111, 95, 95]

  /** Members that survive the rebuild. */
  predicate Carried(e: Entry) { !e.value.Undefined? && e.key != PROTO }

  predicate Sorted(ms: seq<Entry>) { forall i, j :: 0 <= i < j < |ms| ==> KeyLess(ms[i].key, ms[j].key) }

  function Insert(e: Entry, ms: seq<Entry>): seq<Entry> {
    if ms == [] || KeyLess(e.key, ms[0].key) then [e] + ms else [ms[0]] + Insert(e, ms[1..])
  }

  /** `sortValue`, followed by what `JSON.stringify` makes of `undefined` in an array. */
  function Normal(v: Value): Value
    decreases v, 1
  {
    match v
    case Arr(items) => Arr(NormalItems(items))
    case Obj(ms) => Obj(NormalMembers(ms))
    case _ => v
  }

  function NormalItem(v: Value): Value
    decreases v, 2
  {
    if v.Undefined? then Null else Normal(v)
  }

  function NormalItems(items: seq<Value>): (r: seq<Value>)
    ensures |r| == |items| && forall i :: 0 <= i < |items| ==> r[i] == NormalItem(items[i])
    decreases items, 0
  {
    if items == [] then []
    else
      var rest := NormalItems(items[1..]);
      assert forall i :: 0 < i < |items| ==> items[i] == items[1..][i - 1];
      [NormalItem(items[0])] + rest
  }

  function NormalMembers(ms: seq<Entry>): seq<Entry>
    decreases ms, 0
  {
    if ms == [] then []
    else if !Carried(ms[0]) then NormalMembers(ms[1..])
    else Insert(Entry(ms[0].key, Normal(ms[0].value)), NormalMembers(ms[1..]))
  }

  /** `sortValue` as it runs: a fresh object filled in a loop over the keys.  The engine keeps
      own keys in `KeyLess` order whatever the order of insertion. */
  method SortValue(v: Value) returns (r: Value)
    ensures r == Normal(v)
    decreases v
  {
    match v
    case Arr(items) =>
      var out: seq<Value> := [];
      for i := 0 to |items|
        invariant |out| == i && forall j :: 0 <= j < i ==> out[j] == NormalItem(items[j])
      {
        var item := items[i];
        if !item.Undefined? { item := SortValue(item); } else { item := Null; }
        out := out + [item];
      }
      assert out == NormalItems(items);
      r := Arr(out);
    case Obj(ms) =>
      var out: seq<Entry> := [];
      for i := |ms| downto 0
        invariant out == NormalMembers(ms[i..])
      {
        assert ms[i..][1..] == ms[i + 1..] && ms[i..][0] == ms[i];
        if Carried(ms[i]) {
          var value := SortValue(ms[i].value);
          out := Insert(Entry(ms[i].key, value), out);
        }
      }
      assert ms[0..] == ms;
      r := Obj(out);
    case _ => r := v;
  }

  // ---- Equality up to key order and undefined members ----

  predicate Carries(ms: seq<Entry>, key: Units) {
    var r := Lookup(ms, key);
    r.Some? && Carried(Entry(key, r.value))
  }

  /** Equal up to key order and to members that are undefined-valued or named `__proto__`. */
  ghost predicate Same(a: Value, b: Value)
    decreases a, 0
  {
    match a
    case Arr(xs) =>
      b.Arr? && |b.items| == |xs| &&
      forall i :: 0 <= i < |xs| ==> SameItem(xs[i], b.items[i])
    case Obj(ms) =>
      b.Obj?
      && (forall i :: 0 <= i < |ms| && Carried(ms[i]) ==>
            Carries(b.members, ms[i].key) && Same(ms[i].value, Lookup(b.members, ms[i].key).value))
      && (forall j :: 0 <= j < |b.members| && Carried(b.members[j]) ==> Carries(ms, b.members[j].key))
    case _ => a == b
  }

  predicate Nullish(v: Value) { v.Undefined? || v.Null? }

  /** In an array, undefined prints as null. */
  ghost predicate SameItem(a: Value, b: Value)
    decreases a, 1
  {
    Nullish(a) == Nullish(b) && (!Nullish(a) ==> Same(a, b))
  }

  // ---- The canonical form decides equality ----

  predicate HasKey(ms: seq<Entry>, key: Units) { Lookup(ms, key).Some? }

  lemma {:induction false} LookupAt(ms: seq<Entry>, i: nat)
    requires i < |ms| && DistinctKeys(ms)
    ensures Lookup(ms, ms[i].key) == Some(ms[i].value)
  {
  }

  lemma {:induction false} InsertLookup(e: Entry, ms: seq<Entry>, key: Units)
    requires !HasKey(ms, e.key)
    ensures Lookup(Insert(e, ms), key) == if key == e.key then Some(e.value) else Lookup(ms, key)
  {
    if ms == [] || KeyLess(e.key, ms[0].key) {
      assert ([e] + ms)[1..] == ms;
    } else {
      InsertLookup(e, ms[1..], key);
      assert ([ms[0]] + Insert(e, ms[1..]))[1..] == Insert(e, ms[1..]);
    }
  }

  lemma {:induction false} InsertSorted(e: Entry, ms: seq<Entry>)
    requires Sorted(ms) && !HasKey(ms, e.key)
    ensures Sorted(Insert(e, ms))
  {
    if ms == [] {
    } else if KeyLess(e.key, ms[0].key) {
      forall i | 0 < i < |ms| ensures KeyLess(e.key, ms[i].key) { KeyOrder(e.key, ms[0].key, ms[i].key); }
    } else {
      InsertSorted(e, ms[1..]);
      var r := Insert(e, ms[1..]);
      forall i | 0 <= i < |r| ensures KeyLess(ms[0].key, r[i].key) {
        SortedDistinct(r);
        LookupAt(r, i);
        InsertLookup(e, ms[1..], r[i].key);
        KeyOrder(e.key, ms[0].key, e.key);
      }
    }
  }

  lemma {:induction false} SortedDistinct(ms: seq<Entry>)
    requires Sorted(ms)
    ensures DistinctKeys(ms)
  {
    forall i, j | 0 <= i < j < |ms| ensures ms[i].key != ms[j].key { KeyOrder(ms[i].key, ms[j].key, ms[j].key); }
  }

  /** The canonical members are sorted, and are the carried ones with canonical values. */
  lemma {:induction false} NormalMembersCorrect(ms: seq<Entry>, key: Units)
    requires DistinctKeys(ms)
    ensures Sorted(NormalMembers(ms))
    ensures Lookup(NormalMembers(ms), key) == if Carries(ms, key) then Some(Normal(Lookup(ms, key).value)) else None
  {
    if ms != [] {
      NormalMembersCorrect(ms[1..], key);
      NormalMembersCorrect(ms[1..], ms[0].key);
      assert Lookup(ms[1..], ms[0].key).None?;
      if Carried(ms[0]) {
        var e, rest := Entry(ms[0].key, Normal(ms[0].value)), NormalMembers(ms[1..]);
        InsertSorted(e, rest);
        InsertLookup(e, rest, key);
      }
    }
  }

  lemma {:induction false} HeadHasKey(ms: seq<Entry>)
    ensures ms != [] ==> Lookup(ms, ms[0].key).Some?
  {
  }

  /** A sorted member list is determined by its lookups. */
  lemma {:induction false} SortedUnique(a: seq<Entry>, b: seq<Entry>)
    requires Sorted(a) && Sorted(b) && forall key :: Lookup(a, key) == Lookup(b, key)
    ensures a == b
  {
    if a == [] || b == [] {
      HeadHasKey(a);
      HeadHasKey(b);
    } else {
      HeadsAgree(a, b);
      SortedDistinct(a);
      SortedDistinct(b);
      forall key ensures Lookup(a[1..], key) == Lookup(b[1..], key) {
        assert Lookup(a, key) == Lookup(b, key);
      }
      SortedUnique(a[1..], b[1..]);
      assert a == [a[0]] + a[1..] && b == [b[0]] + b[1..];
    }
  }

  lemma {:induction false} HeadsAgree(a: seq<Entry>, b: seq<Entry>)
    requires Sorted(a) && Sorted(b) && a != [] && b != [] && forall key :: Lookup(a, key) == Lookup(b, key)
    ensures a[0] == b[0]
  {
    assert Lookup(b, a[0].key).Some? && Lookup(a, b[0].key).Some?;
    KeyOrder(a[0].key, b[0].key, a[0].key);
    forall i | 0 < i < |a| ensures !KeyLess(a[i].key, a[0].key) { KeyOrder(a[0].key, a[i].key, a[0].key); }
    forall i | 0 < i < |b| ensures !KeyLess(b[i].key, b[0].key) { KeyOrder(b[0].key, b[i].key, b[0].key); }
    forall i | 0 < i < |a| ensures KeyLess(a[0].key, a[i].key) {}
    forall i | 0 < i < |b| ensures KeyLess(b[0].key, b[i].key) {}
  }

  /** Canonical forms are equal exactly when the values are, up to key order and undefined members. */
  lemma {:induction false} NormalExactly(a: Value, b: Value)
    requires Proper(a) && Proper(b)
    ensures Normal(a) == Normal(b) <==> Same(a, b)
    decreases a, 0
  {
    if a.Arr? && b.Arr? {
      if |a.items| == |b.items| {
        forall i | 0 <= i < |a.items|
          ensures NormalItem(a.items[i]) == NormalItem(b.items[i]) <==> SameItem(a.items[i], b.items[i])
        {
          NormalItemExactly(a.items[i], b.items[i]);
        }
      }
      ItemsEqual(a.items, b.items);
    } else if a.Obj? && b.Obj? {
      NormalObjExactly(a.members, b.members);
    }
  }

  lemma {:induction false} ItemsEqual(xs: seq<Value>, ys: seq<Value>)
    ensures NormalItems(xs) == NormalItems(ys) <==>
      |xs| == |ys| && forall i :: 0 <= i < |xs| ==> NormalItem(xs[i]) == NormalItem(ys[i])
  {
    var p, q := NormalItems(xs), NormalItems(ys);
    if p == q {
      forall i | 0 <= i < |xs| ensures NormalItem(xs[i]) == NormalItem(ys[i]) { assert p[i] == q[i]; }
    }
  }

  lemma {:induction false} NormalItemExactly(a: Value, b: Value)
    requires Proper(a) && Proper(b)
    ensures NormalItem(a) == NormalItem(b) <==> SameItem(a, b)
    decreases a, 1
  {
    NormalExactly(a, b);
  }

  lemma {:induction false} NormalObjExactly(xs: seq<Entry>, ys: seq<Entry>)
    requires Proper(Obj(xs)) && Proper(Obj(ys))
    ensures NormalMembers(xs) == NormalMembers(ys) <==> Same(Obj(xs), Obj(ys))
    decreases xs, 0
  {
    var p, q := NormalMembers(xs), NormalMembers(ys);
    forall i | 0 <= i < |xs| && Carries(ys, xs[i].key)
      ensures Normal(xs[i].value) == Normal(Lookup(ys, xs[i].key).value) <==>
        Same(xs[i].value, Lookup(ys, xs[i].key).value)
    {
      NormalExactly(xs[i].value, Lookup(ys, xs[i].key).value);
    }
    forall key
      ensures Lookup(p, key) == if Carries(xs, key) then Some(Normal(Lookup(xs, key).value)) else None
      ensures Lookup(q, key) == if Carries(ys, key) then Some(Normal(Lookup(ys, key).value)) else None
    {
      NormalMembersCorrect(xs, key);
      NormalMembersCorrect(ys, key);
    }
    if p == q {
      forall i | 0 <= i < |xs| && Carried(xs[i])
        ensures Carries(ys, xs[i].key) && Same(xs[i].value, Lookup(ys, xs[i].key).value)
      {
        LookupAt(xs, i);
      }
      forall j | 0 <= j < |ys| && Carried(ys[j]) ensures Carries(xs, ys[j].key) {
        LookupAt(ys, j);
      }
    } else if Same(Obj(xs), Obj(ys)) {
      NormalMembersCorrect(xs, []);
      NormalMembersCorrect(ys, []);
      forall key ensures Lookup(p, key) == Lookup(q, key) {
        if Carries(xs, key) {
          var i :| 0 <= i < |xs| && xs[i] == Entry(key, Lookup(xs, key).value);
          assert Carried(xs[i]);
        }
        if Carries(ys, key) {
          var j :| 0 <= j < |ys| && ys[j] == Entry(key, Lookup(ys, key).value);
          assert Carried(ys[j]);
        }
      }
      SortedUnique(p, q);
    }
  }
}
