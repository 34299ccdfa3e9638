/** A reader of compact JSON, written from RFC 8259 (sections 3 to 7) and not from the printer: what it reads out
    of a canonical text is the value the text was printed from. */
module JsonReader {
  import opened Wrappers
  import opened CanonicalJson
  import opened CanonicalPrint
  import opened Commitments

  // ---- Strings (section 7) ----

  function HexValue(u: nat): Option<nat> {
    if 48 <= u <= 57 then Some(u - 48)
    else if 65 <= u <= 70 then Some(u - 55)
    else if 97 <= u <= 102 then Some(u - 87)
    else None
  }

  function ReadHex(t: Units): Option<nat> {
    if |t| < 4 then None
    else
      var a, b, c, d := HexValue(t[0]), HexValue(t[1]), HexValue(t[2]), HexValue(t[3]);
      if a.None? || b.None? || c.None? || d.None? then None
      else Some(((a.value * 16 + b.value) * 16 + c.value) * 16 + d.value)
  }

  /** What stands for what after a backslash. */
  function Unescaped(u: nat): Option<nat> {
    if u == 34 || u == 92 || u == 47 then Some(u)
    else if u == 98 then Some(8)
    else if u == 102 then Some(12)
    else if u == 110 then Some(10)
    else if u == 114 then Some(13)
    else if u == 116 then Some(9)
    else None
  }

  /** The next code unit of a string that is not over. */
  function ReadUnit(t: Units): (r: Option<(nat, Units)>)
    requires t != []
    ensures r.Some? ==> |r.value.1| < |t|
  {
    if t[0] != 92 then if t[0] < 32 then None else Some((t[0], t[1..]))
    else if |t| < 2 then None
    else if t[1] == 117 then
      var u := ReadHex(t[2..]);
      if u.None? then None else Some((u.value, t[6..]))
    else
      var u := Unescaped(t[1]);
      if u.None? then None else Some((u.value, t[2..]))
  }

  /** Up to and with the closing quote. */
  function ReadString(t: Units): (r: Option<(Units, Units)>)
    ensures r.Some? ==> |r.value.1| < |t|
    decreases |t|
  {
    if t == [] then None
    else if t[0] == 34 then Some(([], t[1..]))
    else
      var u := ReadUnit(t);
      if u.None? then None
      else
        var rest := ReadString(u.value.1);
        if rest.None? then None else Some(([u.value.0] + rest.value.0, rest.value.1))
  }

  // ---- Values (sections 3 to 6) ----

  const NULL := Ascii("null")
  const YES := Ascii("true")
  const NO := Ascii("false")

  predicate Starts(t: Units, word: Units) { |word| <= |t| && t[..|word|] == word }

  function NumberLength(t: Units): (n: nat)
    ensures n <= |t|
  {
    if t != [] && IsNumberUnit(t[0]) then 1 + NumberLength(t[1..]) else 0
  }

  function ReadWord(t: Units): (r: Option<(Value, Units)>)
    ensures r.Some? ==> |r.value.1| < |t|
  {
    var n := NumberLength(t);
    if Starts(t, NULL) then Some((Null, t[|NULL|..]))
    else if Starts(t, YES) then Some((Bool(true), t[|YES|..]))
    else if Starts(t, NO) then Some((Bool(false), t[|NO|..]))
    else if IsNumberText(t[..n]) then Some((Num(t[..n]), t[n..]))
    else None
  }

  function ReadValue(t: Units): (r: Option<(Value, Units)>)
    ensures r.Some? ==> |r.value.1| < |t|
    decreases |t|, 0
  {
    if t == [] then None
    else if t[0] == 34 then
      var s := ReadString(t[1..]);
      if s.None? then None else Some((Str(s.value.0), s.value.1))
    else if t[0] == 91 then
      var xs := ReadItems(t[1..], true);
      if xs.None? then None else Some((Arr(xs.value.0), xs.value.1))
    else if t[0] == 123 then
      var ms := ReadMembers(t[1..], true);
      if ms.None? then None else Some((Obj(ms.value.0), ms.value.1))
    else ReadWord(t)
  }

  /** Where the next of a list begins, after its comma if it is not the first. */
  function Next(t: Units, first: bool): Option<Units> {
    if first then Some(t) else if t != [] && t[0] == 44 then Some(t[1..]) else None
  }

  function ReadItems(t: Units, first: bool): (r: Option<(seq<Value>, Units)>)
    ensures r.Some? ==> |r.value.1| < |t|
    decreases |t|, 1
  {
    if t != [] && t[0] == 93 then Some(([], t[1..]))
    else
      var u := Next(t, first);
      var v := if u.None? then None else ReadValue(u.value);
      if v.None? then None
      else
        var rest := ReadItems(v.value.1, false);
        if rest.None? then None else Some(([v.value.0] + rest.value.0, rest.value.1))
  }

  function ReadMembers(t: Units, first: bool): (r: Option<(seq<Entry>, Units)>)
    ensures r.Some? ==> |r.value.1| < |t|
    decreases |t|, 1
  {
    if t != [] && t[0] == 125 then Some(([], t[1..]))
    else
      var u := Next(t, first);
      if u.None? || u.value == [] || u.value[0] != 34 then None
      else
        var key := ReadString(u.value[1..]);
        if key.None? || key.value.1 == [] || key.value.1[0] != 58 then None
        else
          var v := ReadValue(key.value.1[1..]);
          if v.None? then None
          else
            var rest := ReadMembers(v.value.1, false);
            if rest.None? then None else Some(([Entry(key.value.0, v.value.0)] + rest.value.0, rest.value.1))
  }

  // ---- Reading what was printed ----

  lemma ReadHexDigit(d: nat)
    requires d < 16
    ensures HexValue(HexDigit(d)) == Some(d)
  {
  }

  lemma ReadHex4(u: nat, x: Units)
    requires u < 0x10000
    ensures ReadHex(Hex4(u) + x) == Some(u)
  {
    var t := Hex4(u) + x;
    assert t[0] == HexDigit(u / 4096) && t[1] == HexDigit(u / 256 % 16);
    assert t[2] == HexDigit(u / 16 % 16) && t[3] == HexDigit(u % 16);
    HexParts(u);
    ReadHexDigit(u / 4096);
    ReadHexDigit(u / 256 % 16);
    ReadHexDigit(u / 16 % 16);
    ReadHexDigit(u % 16);
  }

  lemma ReadEscape(u: nat, x: Units)
    requires u < 0x10000
    ensures var t := Escape(u) + x; t[0] != 34 && ReadUnit(t) == Some((u, x))
  {
    var t := Escape(u) + x;
    assert t[0] == Escape(u)[0] && t[|Escape(u)|..] == x;
    if t[0] == 92 {
      assert t[1] == Escape(u)[1];
      if t[1] == 117 {
        assert t[2..] == Hex4(u) + x;
        ReadHex4(u, x);
      }
    }
  }

  lemma ReadRaw(u: nat, x: Units)
    requires u >= 0xD800
    ensures var t := [u] + x; t[0] != 34 && ReadUnit(t) == Some((u, x))
  {
  }

  lemma ReadNext(t: Units, u: nat, rest: Units, s: Units, x: Units)
    requires t != [] && t[0] != 34 && ReadUnit(t) == Some((u, rest)) && ReadString(rest) == Some((s, x))
    ensures ReadString(t) == Some(([u] + s, x))
  {
  }

  lemma ReadPair(s: Units, x: Units, r: Units)
    requires IsUnits(s) && StartsPair(s) && r == QuoteRest(s[2..]) + x && ReadString(r) == Some((s[2..], x))
    ensures ReadString(QuoteRest(s) + x) == Some((s, x))
  {
    var q := [s[1]] + r;
    ReadRaw(s[1], r);
    ReadNext(q, s[1], r, s[2..], x);
    ReadRaw(s[0], q);
    ReadNext([s[0]] + q, s[0], q, [s[1]] + s[2..], x);
    Shift([s[0], s[1]], QuoteRest(s[2..]), x);
    TwoUnits(s[0], s[1], r);
    TwoUnits(s[0], s[1], s[2..]);
    assert s == [s[0], s[1]] + s[2..];
  }

  lemma TwoUnits(a: nat, b: nat, x: Units)
    ensures [a, b] + x == [a] + ([b] + x)
  {
  }

  lemma ReadOne(s: Units, x: Units, r: Units)
    requires IsUnits(s) && s != [] && !StartsPair(s)
    requires r == QuoteRest(s[1..]) + x && ReadString(r) == Some((s[1..], x))
    ensures ReadString(QuoteRest(s) + x) == Some((s, x))
  {
    ReadEscape(s[0], r);
    ReadNext(Escape(s[0]) + r, s[0], r, s[1..], x);
    Shift(Escape(s[0]), QuoteRest(s[1..]), x);
    assert s == [s[0]] + s[1..];
  }

  lemma {:induction false} ReadQuoted(s: Units, x: Units)
    requires IsUnits(s)
    ensures ReadString(QuoteRest(s) + x) == Some((s, x))
  {
    if s == [] {
      assert ([34] + x)[1..] == x;
    } else if StartsPair(s) {
      ReadQuoted(s[2..], x);
      ReadPair(s, x, QuoteRest(s[2..]) + x);
    } else {
      ReadQuoted(s[1..], x);
      ReadOne(s, x, QuoteRest(s[1..]) + x);
    }
  }

  lemma {:induction false} NumberEnds(t: Units, x: Units)
    requires (forall i :: 0 <= i < |t| ==> IsNumberUnit(t[i])) && Delimited(x)
    ensures NumberLength(t + x) == |t|
  {
    if t == [] {
      assert t + x == x;
    } else {
      NumberEnds(t[1..], x);
      assert (t + x)[1..] == t[1..] + x;
    }
  }

  lemma OtherWord(t: Units, word: Units)
    requires t != [] && word != []
    ensures Starts(t, word) ==> word[0] == t[0]
  {
    if Starts(t, word) { assert t[..|word|][0] == t[0]; }
  }

  lemma ReadNumber(t: Units, x: Units)
    requires IsNumberText(t) && Delimited(x)
    ensures ReadValue(t + x) == Some((Num(t), x))
  {
    NumberEnds(t, x);
    var u := t + x;
    assert u[0] == t[0] && u[..|t|] == t && u[|t|..] == x;
    assert NULL[0] == 110 && YES[0] == 116 && NO[0] == 102;
    OtherWord(u, NULL);
    OtherWord(u, YES);
    OtherWord(u, NO);
  }

  lemma ReadConstant(v: Value, x: Units)
    requires v.Null? || v.Bool?
    ensures ReadValue(Print(v) + x) == Some((v, x))
  {
    var t := Print(v) + x;
    assert NULL == [110, 117, 108, 108] && YES == [116, 114, 117, 101] && NO == [102, 97, 108, 115, 101];
    assert t[0] == Print(v)[0] && t[..|Print(v)|] == Print(v) && t[|Print(v)|..] == x;
    OtherWord(t, NULL);
    OtherWord(t, YES);
  }

  /** Whatever delimiter follows, the text of a value reads back as that value. */
  lemma {:induction false} ReadPrint(v: Value, x: Units)
    requires Printable(v) && Delimited(x)
    ensures ReadValue(Print(v) + x) == Some((v, x))
    decreases v, 1
  {
    match v
    case Num(text) => ReadNumber(text, x);
    case Str(s) => ReadPrintString(s, x);
    case Arr(items) =>
      ReadPrintItems(items, true, x);
      AfterBracket(91, PrintItems(items, true), x);
    case Obj(ms) =>
      ReadPrintMembers(ms, true, x);
      AfterBracket(123, PrintMembers(ms, true), x);
    case _ => ReadConstant(v, x);
  }

  lemma AfterBracket(u: nat, t: Units, x: Units)
    ensures ([u] + t + x)[0] == u && ([u] + t + x)[1..] == t + x
  {
  }

  lemma ReadPrintString(s: Units, x: Units)
    requires IsUnits(s)
    ensures ReadValue(Print(Str(s)) + x) == Some((Str(s), x))
  {
    ReadQuoted(s, x);
    AfterBracket(34, QuoteRest(s), x);
  }

  lemma AfterComma(first: bool, x: Units)
    ensures Next(Comma(first) + x, first) == Some(x)
  {
    assert first ==> [] + x == x;
    assert ([44] + x)[1..] == x;
  }

  lemma NextItem(t: Units, first: bool, u: Units, v: Value, rest: Units, vs: seq<Value>, x: Units)
    requires t != [] && t[0] != 93 && Next(t, first) == Some(u)
    requires ReadValue(u) == Some((v, rest)) && ReadItems(rest, false) == Some((vs, x))
    ensures ReadItems(t, first) == Some(([v] + vs, x))
  {
  }

  lemma NextMember(t: Units, first: bool, u: Units, key: Units, colon: Units, v: Value, rest: Units, ms: seq<Entry>,
                   x: Units)
    requires t != [] && t[0] != 125 && Next(t, first) == Some(u) && u != [] && u[0] == 34
    requires ReadString(u[1..]) == Some((key, colon)) && colon != [] && colon[0] == 58
    requires ReadValue(colon[1..]) == Some((v, rest)) && ReadMembers(rest, false) == Some((ms, x))
    ensures ReadMembers(t, first) == Some(([Entry(key, v)] + ms, x))
  {
  }

  lemma {:induction false} ReadPrintItems(items: seq<Value>, first: bool, x: Units)
    requires Printable(Arr(items))
    ensures ReadItems(PrintItems(items, first) + x, first) == Some((items, x))
    decreases items, 0
  {
    var t := PrintItems(items, first) + x;
    if items == [] {
      assert t[1..] == x;
    } else {
      var rest := PrintItems(items[1..], false) + x;
      ItemsHead(items, first, x);
      AfterComma(first, Print(items[0]) + rest);
      ReadPrint(items[0], rest);
      ReadPrintItems(items[1..], false, x);
      NextItem(t, first, Print(items[0]) + rest, items[0], rest, items[1..], x);
      assert items == [items[0]] + items[1..];
    }
  }

  lemma ReadMember(e: Entry, first: bool, rest: Units, ms: seq<Entry>, x: Units)
    requires IsUnits(e.key) && Printable(e.value) && ReadValue(Print(e.value) + rest) == Some((e.value, rest))
    requires ReadMembers(rest, false) == Some((ms, x))
    ensures ReadMembers(PrintMember(e, first, rest), first) == Some(([e] + ms, x))
  {
    var value := Print(e.value) + rest;
    var colon := [58] + value;
    var member := [34] + (QuoteRest(e.key) + colon);
    AfterComma(first, member);
    ReadQuoted(e.key, colon);
    assert member[1..] == QuoteRest(e.key) + colon && colon[1..] == value;
    NextMember(PrintMember(e, first, rest), first, member, e.key, colon, e.value, rest, ms, x);
  }

  lemma {:induction false} ReadPrintMembers(ms: seq<Entry>, first: bool, x: Units)
    requires Printable(Obj(ms))
    ensures ReadMembers(PrintMembers(ms, first) + x, first) == Some((ms, x))
    decreases ms, 0
  {
    if ms == [] {
      assert ([125] + x)[1..] == x;
    } else {
      var rest := PrintMembers(ms[1..], false) + x;
      MembersHead(ms, first, x);
      ReadPrint(ms[0].value, rest);
      ReadPrintMembers(ms[1..], false, x);
      ReadMember(ms[0], first, rest, ms[1..], x);
      assert ms == [ms[0]] + ms[1..];
    }
  }

  /** So the canonical text of a value reads back as its canonical form. */
  lemma CanonicalReads(v: Value)
    requires Proper(v) && !v.Undefined?
    ensures ReadValue(Canonical(v).value) == Some((Normal(v), []))
  {
    NormalPrintable(v);
    ReadPrint(Normal(v), []);
    assert Print(Normal(v)) + [] == Print(Normal(v));
  }

  // ---- The printer's choice among the texts of a code unit ----

  predicate LowerHex(e: Units) { forall i :: 2 <= i < |e| ==> HexValue(e[i]).Some? && !(65 <= e[i] <= 70) }

  lemma LowerDigit(c: nat)
    requires HexValue(c).Some? && !(65 <= c <= 70)
    ensures HexValue(c).value < 16 && HexDigit(HexValue(c).value) == c
  {
  }

  lemma Digits(a: nat, b: nat, c: nat, d: nat)
    requires a < 16 && b < 16 && c < 16 && d < 16
    ensures var u := ((a * 16 + b) * 16 + c) * 16 + d;
      u < 0x10000 && u / 4096 == a && u / 256 % 16 == b && u / 16 % 16 == c && u % 16 == d
  {
  }

  lemma HexIsPrinted(e: Units, u: nat)
    requires |e| == 6 && e[0] == 92 && e[1] == 117 && LowerHex(e) && ReadUnit(e) == Some((u, []))
    ensures u < 0x10000 && e == [92, 117] + Hex4(u)
  {
    var t := e[2..];
    assert t[0] == e[2] && t[1] == e[3] && t[2] == e[4] && t[3] == e[5];
    LowerDigit(e[2]);
    LowerDigit(e[3]);
    LowerDigit(e[4]);
    LowerDigit(e[5]);
    Digits(HexValue(e[2]).value, HexValue(e[3]).value, HexValue(e[4]).value, HexValue(e[5]).value);
  }

  /** Of all texts that read as a code unit the printer takes the shortest, with small hexadecimal digits; only
      half a surrogate pair, which would have a shorter text, it spells out all the same. */
  lemma EscapeChosen(u: nat, e: Units)
    requires u < 0x10000 && e != [] && e[0] != 34 && ReadUnit(e) == Some((u, []))
    ensures !Lead(u) && !Trail(u) ==> |Escape(u)| <= |e|
    ensures Lead(u) || Trail(u) ==> |Escape(u)| == 6
    ensures |e| == |Escape(u)| && (|e| == 6 ==> LowerHex(e)) ==> e == Escape(u)
  {
    if e[0] != 92 {
      assert e == [e[0]] + e[1..];
    } else if e[1] != 117 {
      assert e == [e[0], e[1]] + e[2..];
    } else if LowerHex(e) {
      assert |e[6..]| == 0;
      HexIsPrinted(e, u);
    }
  }
}
