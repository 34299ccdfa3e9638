/** The text `JSON.stringify` makes of a canonical form (sections 3 to 7 of RFC 8259), and
    the proof that it can be read back in one way only. */
module CanonicalPrint {
  import opened Wrappers
  import opened CanonicalJson

  // ---- Strings ----

  predicate Lead(u: nat) { 0xD800 <= u < 0xDC00 }
  predicate Trail(u: nat) { 0xDC00 <= u < 0xE000 }

  function HexDigit(d: nat): nat
    requires d < 16
  {
    if d < 10 then 48 + d else 87 + d
  }

  function Hex4(u: nat): Units
    requires u < 0x10000
  {
    [HexDigit(u / 4096), HexDigit(u / 256 % 16), HexDigit(u / 16 % 16), HexDigit(u % 16)]
  }

  /** A code unit that is not half of a surrogate pair. */
  function Escape(u: nat): Units
    requires u < 0x10000
  {
    if u == 8 then [92, 98]
    else if u == 9 then [92, 116]
    else if u == 10 then [92, 110]
    else if u == 12 then [92, 102]
    else if u == 13 then [92, 114]
    else if u == 34 || u == 92 then [92, u]
    else if u < 32 || Lead(u) || Trail(u) then [92, 117] + Hex4(u)
    else [u]
  }

  predicate StartsPair(s: Units) { |s| >= 2 && Lead(s[0]) && Trail(s[1]) }

  /** The string after its opening quote, up to and with the closing one. */
  function QuoteRest(s: Units): Units
    requires IsUnits(s)
  {
    if s == [] then [34]
    else if StartsPair(s) then [s[0], s[1]] + QuoteRest(s[2..])
    else Escape(s[0]) + QuoteRest(s[1..])
  }

  lemma HexInjective(u: nat, w: nat)
    requires u < 0x10000 && w < 0x10000 && Hex4(u) == Hex4(w)
    ensures u == w
  {
    var p, q := Hex4(u), Hex4(w);
    assert p[0] == q[0] && p[1] == q[1] && p[2] == q[2] && p[3] == q[3];
    HexParts(u);
    HexParts(w);
  }

  lemma HexParts(u: nat)
    requires u < 0x10000
    ensures u == u / 4096 * 4096 + u / 256 % 16 * 256 + u / 16 % 16 * 16 + u % 16
  {
    assert u / 256 / 16 == u / 4096 && u / 16 / 16 == u / 256;
  }

  lemma EscapeDecodes(u: nat, w: nat, x: Units, y: Units)
    requires u < 0x10000 && w < 0x10000 && Escape(u) + x == Escape(w) + y
    ensures u == w && x == y
  {
    var p, q := Escape(u) + x, Escape(w) + y;
    assert p[0] == Escape(u)[0] && q[0] == Escape(w)[0];
    if p[0] == 92 {
      assert p[1] == Escape(u)[1] && q[1] == Escape(w)[1];
      if p[1] == 117 {
        assert p[2..6] == Hex4(u) && q[2..6] == Hex4(w);
        HexInjective(u, w);
      }
    }
    assert p[|Escape(u)|..] == x && q[|Escape(w)|..] == y;
  }

  lemma Cancel(a: Units, b: Units, x: Units, y: Units)
    requires |a| == |b| && a + x == b + y
    ensures a == b && x == y
  {
    var p, q := a + x, b + y;
    assert p[..|a|] == a && q[..|b|] == b && p[|a|..] == x && q[|b|..] == y;
  }

  /** How many code units the next piece of the string takes, and its text. */
  function Piece(s: Units): Units
    requires IsUnits(s) && s != []
  {
    if StartsPair(s) then [s[0], s[1]] else Escape(s[0])
  }

  function PieceLength(s: Units): nat
    requires s != []
  {
    if StartsPair(s) then 2 else 1
  }

  lemma QuoteStep(s: Units, x: Units)
    requires IsUnits(s) && s != []
    ensures QuoteRest(s) + x == Piece(s) + (QuoteRest(s[PieceLength(s)..]) + x)
  {
  }

  lemma PieceDecodes(s: Units, t: Units, x: Units, y: Units)
    requires IsUnits(s) && IsUnits(t) && s != [] && t != [] && Piece(s) + x == Piece(t) + y
    ensures PieceLength(s) == PieceLength(t) && s[..PieceLength(s)] == t[..PieceLength(t)] && x == y
  {
    var p, q := Piece(s) + x, Piece(t) + y;
    assert p[0] == Piece(s)[0] && q[0] == Piece(t)[0];
    if StartsPair(s) {
      Cancel(Piece(s), Piece(t), x, y);
    } else {
      EscapeDecodes(s[0], t[0], x, y);
    }
  }

  /** The closing quote is on both sides. */
  lemma QuoteEnds(s: Units, t: Units, x: Units, y: Units)
    requires IsUnits(s) && IsUnits(t) && QuoteRest(s) + x == QuoteRest(t) + y && (s == [] || t == [])
    ensures s == t && x == y
  {
    var p, q := QuoteRest(s) + x, QuoteRest(t) + y;
    assert p[0] == QuoteRest(s)[0] && q[0] == QuoteRest(t)[0];
    Cancel([34], [34], x, y);
  }

  lemma {:induction false} QuoteDecodes(s: Units, t: Units, x: Units, y: Units)
    requires IsUnits(s) && IsUnits(t) && QuoteRest(s) + x == QuoteRest(t) + y
    ensures s == t && x == y
  {
    if s == [] || t == [] {
      QuoteEnds(s, t, x, y);
    } else {
      QuoteStep(s, x);
      QuoteStep(t, y);
      var m, n := PieceLength(s), PieceLength(t);
      PieceDecodes(s, t, QuoteRest(s[m..]) + x, QuoteRest(t[n..]) + y);
      QuoteDecodes(s[m..], t[n..], x, y);
      assert s == s[..m] + s[m..] && t == t[..n] + t[n..];
    }
  }

  // ---- Values ----

  predicate Printable(v: Value) {
    match v
    case Undefined => false
    case Num(t) => IsNumberText(t)
    case Str(s) => IsUnits(s)
    case Arr(items) => forall i :: 0 <= i < |items| ==> Printable(items[i])
    case Obj(ms) => forall i :: 0 <= i < |ms| ==> IsUnits(ms[i].key) && Printable(ms[i].value)
    case _ => true
  }

  function Comma(first: bool): Units { if first then [] else [44] }

  function Print(v: Value): Units
    requires Printable(v)
    decreases v, 1
  {
    match v
    case Null => [110, 117, 108, 108]
    case Bool(b) => if b then [116, 114, 117, 101] else [102, 97, 108, 115, 101]
    case Num(t) => t
    case Str(s) => [34] + QuoteRest(s)
    case Arr(items) => [91] + PrintItems(items, true)
    case Obj(ms) => [123] + PrintMembers(ms, true)
  }

  function PrintItems(items: seq<Value>, first: bool): Units
    requires Printable(Arr(items))
    decreases items, 0
  {
    if items == [] then [93]
    else Comma(first) + (Print(items[0]) + PrintItems(items[1..], false))
  }

  function PrintMembers(ms: seq<Entry>, first: bool): Units
    requires Printable(Obj(ms))
    decreases ms, 0
  {
    if ms == [] then [125]
    else
      Comma(first) + ([34] + (QuoteRest(ms[0].key) + ([58] + (Print(ms[0].value) + PrintMembers(ms[1..], false)))))
  }

  /** What may follow a value: nothing, a comma or a closing bracket. */
  predicate Delimited(x: Units) { x == [] || x[0] == 44 || x[0] == 93 || x[0] == 125 }

  lemma Beyond(t: Units, w: Units, x: Units, y: Units)
    requires |t| < |w| && t + x == w + y
    ensures x != [] && x[0] == w[|t|]
  {
    var p, q := t + x, w + y;
    assert |p| == |q| && p[|t|] == q[|t|] == w[|t|];
  }

  lemma NumberDecodes(t: Units, w: Units, x: Units, y: Units)
    requires IsNumberText(t) && IsNumberText(w) && Delimited(x) && Delimited(y) && t + x == w + y
    ensures t == w && x == y
  {
    if |t| < |w| { Beyond(t, w, x, y); }
    if |w| < |t| { Beyond(w, t, y, x); }
    Cancel(t, w, x, y);
  }

  lemma FirstUnit(v: Value)
    requires Printable(v)
    ensures Print(v) != []
    ensures match Print(v)[0]
            case 110 => v.Null?
            case 116 => v == Bool(true)
            case 102 => v == Bool(false)
            case 34 => v.Str?
            case 91 => v.Arr?
            case 123 => v.Obj?
            case _ => v.Num?
    ensures Print(v)[0] !in {44, 93, 125}
  {
  }

  /** Everything but a number is told apart, and delimited, from its first unit on. */
  lemma {:induction false} PrintDecodes(a: Value, b: Value, x: Units, y: Units)
    requires Printable(a) && Printable(b) && Delimited(x) && Delimited(y) && Print(a) + x == Print(b) + y
    ensures a == b && x == y
    decreases a, 1
  {
    SameKind(a, b, x, y);
    if a.Num? {
      NumberDecodes(a.text, b.text, x, y);
    } else if a.Str? {
      Shift([34], QuoteRest(a.units), x);
      Shift([34], QuoteRest(b.units), y);
      Cancel([34], [34], QuoteRest(a.units) + x, QuoteRest(b.units) + y);
      QuoteDecodes(a.units, b.units, x, y);
    } else if a.Arr? {
      Shift([91], PrintItems(a.items, true), x);
      Shift([91], PrintItems(b.items, true), y);
      Cancel([91], [91], PrintItems(a.items, true) + x, PrintItems(b.items, true) + y);
      ItemsDecode(a.items, b.items, true, x, y);
    } else if a.Obj? {
      Shift([123], PrintMembers(a.members, true), x);
      Shift([123], PrintMembers(b.members, true), y);
      Cancel([123], [123], PrintMembers(a.members, true) + x, PrintMembers(b.members, true) + y);
      MembersDecode(a.members, b.members, true, x, y);
    } else {
      Cancel(Print(a), Print(b), x, y);
    }
  }

  lemma Shift(a: Units, b: Units, x: Units)
    ensures (a + b) + x == a + (b + x)
  {
  }

  predicate SameShape(a: Value, b: Value) {
    (a.Num? && b.Num?) || (a.Str? && b.Str?) || (a.Arr? && b.Arr?) || (a.Obj? && b.Obj?) || a == b
  }

  lemma SameKind(a: Value, b: Value, x: Units, y: Units)
    requires Printable(a) && Printable(b) && Print(a) + x == Print(b) + y
    ensures SameShape(a, b)
  {
    FirstUnit(a);
    FirstUnit(b);
    assert (Print(a) + x)[0] == Print(a)[0] && (Print(b) + y)[0] == Print(b)[0];
  }

  lemma {:induction false} ItemsDecode(xs: seq<Value>, ys: seq<Value>, first: bool, x: Units, y: Units)
    requires Printable(Arr(xs)) && Printable(Arr(ys)) && PrintItems(xs, first) + x == PrintItems(ys, first) + y
    ensures xs == ys && x == y
    decreases xs, 0
  {
    if xs != [] { ItemsHead(xs, first, x); }
    if ys != [] { ItemsHead(ys, first, y); }
    if xs == [] || ys == [] {
      assert (PrintItems(xs, first) + x)[0] == (PrintItems(ys, first) + y)[0];
      Cancel([93], [93], x, y);
    } else {
      var r, s := PrintItems(xs[1..], false) + x, PrintItems(ys[1..], false) + y;
      Cancel(Comma(first), Comma(first), Print(xs[0]) + r, Print(ys[0]) + s);
      PrintDecodes(xs[0], ys[0], r, s);
      ItemsDecode(xs[1..], ys[1..], false, x, y);
      assert xs == [xs[0]] + xs[1..] && ys == [ys[0]] + ys[1..];
    }
  }

  lemma ItemsHead(xs: seq<Value>, first: bool, x: Units)
    requires Printable(Arr(xs)) && xs != []
    ensures PrintItems(xs, first) + x == Comma(first) + (Print(xs[0]) + (PrintItems(xs[1..], false) + x))
    ensures Delimited(PrintItems(xs[1..], false) + x)
    ensures (PrintItems(xs, first) + x)[0] != 93
  {
    FirstUnit(xs[0]);
  }

  lemma {:induction false} MembersDecode(xs: seq<Entry>, ys: seq<Entry>, first: bool, x: Units, y: Units)
    requires Printable(Obj(xs)) && Printable(Obj(ys)) && PrintMembers(xs, first) + x == PrintMembers(ys, first) + y
    ensures xs == ys && x == y
    decreases xs, 0
  {
    if xs == [] || ys == [] {
      MembersEnd(xs, ys, first, x, y);
    } else {
      MembersHead(xs, first, x);
      MembersHead(ys, first, y);
      var r, s := PrintMembers(xs[1..], false) + x, PrintMembers(ys[1..], false) + y;
      MemberDecodes(xs[0], ys[0], first, r, s);
      PrintDecodes(xs[0].value, ys[0].value, r, s);
      MembersDecode(xs[1..], ys[1..], false, x, y);
      assert xs == [xs[0]] + xs[1..] && ys == [ys[0]] + ys[1..];
    }
  }

  function PrintMember(e: Entry, first: bool, rest: Units): Units
    requires IsUnits(e.key) && Printable(e.value)
  {
    Comma(first) + ([34] + (QuoteRest(e.key) + ([58] + (Print(e.value) + rest))))
  }

  /** A list that is over is so on both sides. */
  lemma MembersEnd(xs: seq<Entry>, ys: seq<Entry>, first: bool, x: Units, y: Units)
    requires Printable(Obj(xs)) && Printable(Obj(ys)) && PrintMembers(xs, first) + x == PrintMembers(ys, first) + y
    requires xs == [] || ys == []
    ensures xs == ys && x == y
  {
    if xs != [] { MembersHead(xs, first, x); }
    if ys != [] { MembersHead(ys, first, y); }
    assert (PrintMembers(xs, first) + x)[0] == (PrintMembers(ys, first) + y)[0];
    Cancel([125], [125], x, y);
  }

  lemma MemberDecodes(a: Entry, b: Entry, first: bool, r: Units, s: Units)
    requires IsUnits(a.key) && Printable(a.value) && IsUnits(b.key) && Printable(b.value)
    requires PrintMember(a, first, r) == PrintMember(b, first, s)
    ensures a.key == b.key && Print(a.value) + r == Print(b.value) + s
  {
    var p, q := [58] + (Print(a.value) + r), [58] + (Print(b.value) + s);
    Cancel(Comma(first), Comma(first), [34] + (QuoteRest(a.key) + p), [34] + (QuoteRest(b.key) + q));
    Cancel([34], [34], QuoteRest(a.key) + p, QuoteRest(b.key) + q);
    QuoteDecodes(a.key, b.key, p, q);
    Cancel([58], [58], Print(a.value) + r, Print(b.value) + s);
  }

  lemma MembersHead(xs: seq<Entry>, first: bool, x: Units)
    requires Printable(Obj(xs)) && xs != []
    ensures PrintMembers(xs, first) + x == PrintMember(xs[0], first, PrintMembers(xs[1..], false) + x)
    ensures Delimited(PrintMembers(xs[1..], false) + x)
    ensures (PrintMembers(xs, first) + x)[0] != 125
  {
    var r := PrintMembers(xs[1..], false);
    var v := Print(xs[0].value) + r;
    Shift(Print(xs[0].value), r, x);
    Shift([58], v, x);
    Shift(QuoteRest(xs[0].key), [58] + v, x);
    Shift([34], QuoteRest(xs[0].key) + ([58] + v), x);
    Shift(Comma(first), [34] + (QuoteRest(xs[0].key) + ([58] + v)), x);
  }

  // ---- canonicalJson ----

  lemma {:induction false} NormalPrintable(v: Value)
    requires Proper(v) && !v.Undefined?
    ensures Printable(Normal(v))
    decreases v, 1
  {
    match v
    case Arr(items) =>
      forall i | 0 <= i < |items| ensures Printable(NormalItem(items[i])) {
        if !items[i].Undefined? { NormalPrintable(items[i]); }
      }
    case Obj(ms) => MembersPrintable(ms);
    case _ =>
  }

  lemma {:induction false} MembersPrintable(ms: seq<Entry>)
    requires Proper(Obj(ms))
    ensures Printable(Obj(NormalMembers(ms)))
    decreases ms, 0
  {
    if ms != [] {
      MembersPrintable(ms[1..]);
      if Carried(ms[0]) {
        NormalPrintable(ms[0].value);
        InsertPrintable(Entry(ms[0].key, Normal(ms[0].value)), NormalMembers(ms[1..]));
      }
    }
  }

  lemma {:induction false} InsertPrintable(e: Entry, ms: seq<Entry>)
    requires IsUnits(e.key) && Printable(e.value) && Printable(Obj(ms))
    ensures Printable(Obj(Insert(e, ms)))
  {
    if ms != [] && !KeyLess(e.key, ms[0].key) { InsertPrintable(e, ms[1..]); }
  }

  /** None when it throws: a bare undefined has no text. */
  function Canonical(v: Value): (r: Option<Units>)
    requires Proper(v)
  {
    if v.Undefined? then None
    else
      NormalPrintable(v);
      Some(Print(Normal(v)))
  }

  /** Two values have equal canonical text exactly when they are equal up to key order and
      to members that are undefined or named `__proto__`. */
  lemma CanonicalExactly(a: Value, b: Value)
    requires Proper(a) && Proper(b)
    ensures Canonical(a) == Canonical(b) <==> Same(a, b)
  {
    NormalExactly(a, b);
    if !a.Undefined? && !b.Undefined? {
      NormalPrintable(a);
      NormalPrintable(b);
      if Canonical(a) == Canonical(b) {
        assert Print(Normal(a)) + [] == Print(Normal(b)) + [];
        PrintDecodes(Normal(a), Normal(b), [], []);
      }
    }
  }

  // ---- Under the guard against `__proto__` ----

  /** `assertNoProtoKeyDeep` passes. */
  predicate Guarded(v: Value) {
    match v
    case Arr(items) => forall i :: 0 <= i < |items| ==> Guarded(items[i])
    case Obj(ms) => forall i :: 0 <= i < |ms| ==> ms[i].key != PROTO && Guarded(ms[i].value)
    case _ => true
  }

  predicate Has(ms: seq<Entry>, key: Units) {
    var r := Lookup(ms, key);
    r.Some? && !r.value.Undefined?
  }

  /** Equal up to key order and undefined-valued members only. */
  ghost predicate SameJson(a: Value, b: Value)
    decreases a, 0
  {
    match a
    case Arr(xs) => b.Arr? && |b.items| == |xs| && forall i :: 0 <= i < |xs| ==> SameJsonItem(xs[i], b.items[i])
    case Obj(ms) =>
      && b.Obj?
      && (forall i :: 0 <= i < |ms| && !ms[i].value.Undefined? ==>
            Has(b.members, ms[i].key) && SameJson(ms[i].value, Lookup(b.members, ms[i].key).value))
      && (forall j :: 0 <= j < |b.members| && !b.members[j].value.Undefined? ==> Has(ms, b.members[j].key))
    case _ => a == b
  }

  ghost predicate SameJsonItem(a: Value, b: Value)
    decreases a, 1
  {
    Nullish(a) == Nullish(b) && (!Nullish(a) ==> SameJson(a, b))
  }

  /** Where the guard passes, nothing but key order and undefined members is forgotten. */
  lemma {:induction false} GuardedSame(a: Value, b: Value)
    requires Guarded(a) && Guarded(b)
    ensures Same(a, b) <==> SameJson(a, b)
    decreases a, 0
  {
    if a.Arr? && b.Arr? && |a.items| == |b.items| {
      forall i | 0 <= i < |a.items| ensures SameItem(a.items[i], b.items[i]) <==> SameJsonItem(a.items[i], b.items[i]) {
        GuardedSame(a.items[i], b.items[i]);
      }
    } else if a.Obj? && b.Obj? {
      var p, q := a.members, b.members;
      forall i | 0 <= i < |p|
        ensures Carried(p[i]) <==> !p[i].value.Undefined?
        ensures Carries(q, p[i].key) <==> Has(q, p[i].key)
        ensures Has(q, p[i].key) ==>
          (Same(p[i].value, Lookup(q, p[i].key).value) <==> SameJson(p[i].value, Lookup(q, p[i].key).value))
      {
        if Has(q, p[i].key) { GuardedSame(p[i].value, Lookup(q, p[i].key).value); }
      }
      forall j | 0 <= j < |q|
        ensures Carried(q[j]) <==> !q[j].value.Undefined?
        ensures Carries(p, q[j].key) <==> Has(p, q[j].key)
      {
      }
    }
  }

  /** The canonical text decides equality of the values a guarded commitment accepts. */
  lemma GuardedExactly(a: Value, b: Value)
    requires Proper(a) && Proper(b) && Guarded(a) && Guarded(b)
    ensures Canonical(a) == Canonical(b) <==> SameJson(a, b)
  {
    CanonicalExactly(a, b);
    GuardedSame(a, b);
  }

  /** An undefined array item is not left out but printed as null: `[undefined]` and `[null]`
      have one text. */
  lemma UndefinedItemIsNull()
    ensures Canonical(Arr([Undefined])) == Canonical(Arr([Null])) != None
  {
    CanonicalExactly(Arr([Undefined]), Arr([Null]));
  }
}
