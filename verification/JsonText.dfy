/** JSON texts (RFC 8259, sections 2 to 7) with their whitespace, and what the scanner makes of them. */
module JsonText {
  import opened Wrappers
  import opened Sequences
  import opened Scanner

  datatype StringChar = Unescaped(c: char) | Short(c: char) | Unicode(digits: string)
  datatype Exponent = Exponent(mark: char, sign: string, digits: string)

  datatype Json =
    | True | False | Null
    | Number(minus: bool, whole: string, fraction: Option<string>, exponent: Option<Exponent>)
    | String(chars: seq<StringChar>)
    | Array(blank: string, items: seq<Element>)
    | Object(blank: string, members: seq<Member>)
  datatype Element = Element(before: string, value: Json, after: string)
  datatype Member = Member(before: string, key: seq<StringChar>, between: string, element: Element)

  // ---- Grammar ----

  predicate Space(s: string) { forall i :: 0 <= i < |s| ==> s[i] in {' ', '\t', '\n', '\r'} }

  predicate Digits(s: string) { s != [] && forall i :: 0 <= i < |s| ==> '0' <= s[i] <= '9' }

  predicate HexDigit(c: char) { '0' <= c <= '9' || 'a' <= c <= 'f' || 'A' <= c <= 'F' }

  predicate ValidChar(ch: StringChar) {
    match ch
    case Unescaped(c) => ' ' <= c && c != '"' && c != '\\'
    case Short(c) => c in {'"', '\\', '/', 'b', 'f', 'n', 'r', 't'}
    case Unicode(digits) => |digits| == 4 && forall i :: 0 <= i < 4 ==> HexDigit(digits[i])
  }

  predicate ValidChars(chars: seq<StringChar>) { forall i :: 0 <= i < |chars| ==> ValidChar(chars[i]) }

  predicate ValidExponent(e: Exponent) { e.mark in {'e', 'E'} && e.sign in {"", "+", "-"} && Digits(e.digits) }

  predicate Valid(v: Json) {
    match v
    case Number(_, whole, fraction, exponent) =>
      && Digits(whole) && (whole[0] == '0' ==> |whole| == 1)
      && (fraction.Some? ==> Digits(fraction.value)) && (exponent.Some? ==> ValidExponent(exponent.value))
    case String(chars) => ValidChars(chars)
    case Array(blank, items) => Space(blank) && forall i :: 0 <= i < |items| ==> ValidElement(items[i])
    case Object(blank, members) => Space(blank) && forall i :: 0 <= i < |members| ==> ValidMember(members[i])
    case _ => true
  }

  predicate ValidElement(e: Element) { Space(e.before) && Valid(e.value) && Space(e.after) }

  predicate ValidMember(m: Member) {
    Space(m.before) && ValidChars(m.key) && Space(m.between) && ValidElement(m.element)
  }

  // ---- Text ----

  function CharText(ch: StringChar): string {
    match ch
    case Unescaped(c) => [c]
    case Short(c) => ['\\', c]
    case Unicode(digits) => ['\\', 'u'] + digits
  }

  function CharsText(chars: seq<StringChar>): string {
    if chars == [] then [] else CharText(chars[0]) + CharsText(chars[1..])
  }

  function StringText(chars: seq<StringChar>): string { ['"'] + (CharsText(chars) + ['"']) }

  function FractionText(fraction: Option<string>): string { if fraction.Some? then "." + fraction.value else "" }

  function ExponentText(exponent: Option<Exponent>): string {
    if exponent.Some? then [exponent.value.mark] + exponent.value.sign + exponent.value.digits else ""
  }

  function NumberText(minus: bool, whole: string, fraction: Option<string>, exponent: Option<Exponent>): string {
    (if minus then "-" else "") + whole + FractionText(fraction) + ExponentText(exponent)
  }

  /** Any JSON text. */
  function Text(v: Json): string
    decreases v, 1
  {
    match v
    case True => "true"
    case False => "false"
    case Null => "null"
    case Number(minus, whole, fraction, exponent) => NumberText(minus, whole, fraction, exponent)
    case String(chars) => StringText(chars)
    case Array(blank, items) => ['['] + ((blank + ItemsText(items, true)) + [']'])
    case Object(blank, members) => ['{'] + ((blank + MembersText(members, true)) + ['}'])
  }

  function ElementText(e: Element): string
    decreases e, 2
  {
    e.before + (Text(e.value) + e.after)
  }

  function ItemsText(items: seq<Element>, first: bool): string
    decreases items, 0
  {
    if items == [] then []
    else (if first then "" else ",") + (ElementText(items[0]) + ItemsText(items[1..], false))
  }

  function MemberText(m: Member): string
    decreases m, 3
  {
    m.before + (StringText(m.key) + (m.between + (":" + ElementText(m.element))))
  }

  function MembersText(members: seq<Member>, first: bool): string
    decreases members, 0
  {
    if members == [] then []
    else (if first then "" else ",") + (MemberText(members[0]) + MembersText(members[1..], false))
  }

  // ---- JSON texts are nested ----

  ghost predicate Nested(s: string) { exists ps :: ValidPieces(ps) && PiecesText(ps) == s }

  predicate Neutral(c: char) { c != '"' && !Opener(c) && !Closer(c) }

  lemma {:induction false} TextAppend(a: seq<Piece>, b: seq<Piece>)
    ensures PiecesText(a + b) == PiecesText(a) + PiecesText(b)
  {
    if a == [] {
      assert a + b == b;
    } else {
      TextAppend(a[1..], b);
      assert (a + b)[1..] == a[1..] + b && (a + b)[0] == a[0];
      Assoc(PieceText(a[0]), PiecesText(a[1..]), PiecesText(b));
    }
  }

  lemma Join(s: string, t: string)
    requires Nested(s) && Nested(t)
    ensures Nested(s + t)
  {
    var a :| ValidPieces(a) && PiecesText(a) == s;
    var b :| ValidPieces(b) && PiecesText(b) == t;
    TextAppend(a, b);
    assert ValidPieces(a + b);
  }

  lemma One(p: Piece)
    requires ValidPiece(p)
    ensures Nested(PieceText(p))
  {
    assert ValidPieces([p]) && PiecesText([p]) == PieceText(p);
  }

  lemma {:induction false} NeutralNested(s: string)
    requires forall i :: 0 <= i < |s| ==> Neutral(s[i])
    ensures Nested(s)
  {
    if s == [] {
      assert ValidPieces([]) && PiecesText([]) == s;
    } else {
      NeutralNested(s[1..]);
      One(Other(s[0]));
      Join([s[0]], s[1..]);
      assert s == [s[0]] + s[1..];
    }
  }

  lemma {:induction false} BodyAppend(a: seq<Quotable>, b: seq<Quotable>)
    ensures BodyText(a + b) == BodyText(a) + BodyText(b)
  {
    if a == [] {
      assert a + b == b;
    } else {
      BodyAppend(a[1..], b);
      assert (a + b)[1..] == a[1..] + b && (a + b)[0] == a[0];
      Assoc(QuotableText(a[0]), BodyText(a[1..]), BodyText(b));
    }
  }

  lemma {:induction false} PlainBody(s: string) returns (body: seq<Quotable>)
    requires forall i :: 0 <= i < |s| ==> HexDigit(s[i])
    ensures ValidBody(body) && BodyText(body) == s
  {
    if s == [] { return []; }
    var rest := PlainBody(s[1..]);
    body := [Plain(s[0])] + rest;
    assert body[1..] == rest && s == [s[0]] + s[1..];
  }

  lemma CharBody(ch: StringChar) returns (body: seq<Quotable>)
    requires ValidChar(ch)
    ensures ValidBody(body) && BodyText(body) == CharText(ch)
  {
    match ch
    case Unescaped(c) => body := [Plain(c)];
    case Short(c) => body := [Escape(c)];
    case Unicode(digits) =>
      var rest := PlainBody(digits);
      body := [Escape('u')] + rest;
      BodyAppend([Escape('u')], rest);
  }

  lemma {:induction false} BodyOf(chars: seq<StringChar>) returns (body: seq<Quotable>)
    requires ValidChars(chars)
    ensures ValidBody(body) && BodyText(body) == CharsText(chars)
  {
    if chars == [] { return []; }
    var first := CharBody(chars[0]);
    var rest := BodyOf(chars[1..]);
    BodyAppend(first, rest);
    body := first + rest;
  }

  lemma StringNested(chars: seq<StringChar>)
    requires ValidChars(chars)
    ensures Nested(StringText(chars))
  {
    var body := BodyOf(chars);
    One(Quoted(body));
  }

  lemma NumberNeutral(v: Json)
    requires v.Number? && Valid(v)
    ensures AllNeutral(Text(v))
  {
    var fraction := FractionText(v.fraction);
    var head := (if v.minus then "-" else "") + v.whole;
    NeutralAppend(if v.minus then "-" else "", v.whole);
    FractionNeutral(v.fraction);
    NeutralAppend(head, fraction);
    ExponentNeutral(v.exponent);
    NeutralAppend(head + fraction, ExponentText(v.exponent));
  }

  lemma FractionNeutral(fraction: Option<string>)
    requires fraction.Some? ==> Digits(fraction.value)
    ensures AllNeutral(FractionText(fraction))
  {
    if fraction.Some? { NeutralAppend(".", fraction.value); }
  }

  lemma ExponentNeutral(exponent: Option<Exponent>)
    requires exponent.Some? ==> ValidExponent(exponent.value)
    ensures AllNeutral(ExponentText(exponent))
  {
    if exponent.Some? {
      NeutralAppend([exponent.value.mark], exponent.value.sign);
      NeutralAppend([exponent.value.mark] + exponent.value.sign, exponent.value.digits);
    }
  }

  predicate AllNeutral(s: string) { forall i :: 0 <= i < |s| ==> Neutral(s[i]) }

  lemma NeutralAppend(a: string, b: string)
    ensures AllNeutral(a + b) <==> AllNeutral(a) && AllNeutral(b)
  {
    assert forall i :: 0 <= i < |b| ==> b[i] == (a + b)[|a| + i];
    assert forall i :: 0 <= i < |a| ==> a[i] == (a + b)[i];
  }

  lemma {:induction false} ValueNested(v: Json)
    requires Valid(v)
    ensures Nested(Text(v))
    decreases v, 1
  {
    match v
    case String(chars) => StringNested(chars);
    case Array(blank, items) =>
      var _ := ContainerGroup(v);
    case Object(blank, members) =>
      var _ := ContainerGroup(v);
    case Number(_, _, _, _) => NumberNeutral(v); NeutralNested(Text(v));
    case _ => NeutralNested(Text(v));
  }

  lemma {:induction false} ContainerGroup(v: Json) returns (g: Piece)
    requires Valid(v) && (v.Array? || v.Object?)
    ensures g.Group? && ValidPiece(g) && PieceText(g) == Text(v) && Nested(Text(v))
    decreases v, 0
  {
    NeutralNested(v.blank);
    var inner: string;
    if v.Array? {
      ItemsNested(v.items, true);
      inner := v.blank + ItemsText(v.items, true);
      Join(v.blank, ItemsText(v.items, true));
    } else {
      MembersNested(v.members, true);
      inner := v.blank + MembersText(v.members, true);
      Join(v.blank, MembersText(v.members, true));
    }
    var ps :| ValidPieces(ps) && PiecesText(ps) == inner;
    g := Group(if v.Array? then '[' else '{', ps);
    One(g);
  }

  lemma {:induction false} ElementNested(e: Element)
    requires ValidElement(e)
    ensures Nested(ElementText(e))
    decreases e, 2
  {
    NeutralNested(e.before);
    NeutralNested(e.after);
    ValueNested(e.value);
    Join(Text(e.value), e.after);
    Join(e.before, Text(e.value) + e.after);
  }

  lemma {:induction false} ItemsNested(items: seq<Element>, first: bool)
    requires forall i :: 0 <= i < |items| ==> ValidElement(items[i])
    ensures Nested(ItemsText(items, first))
    decreases items, 0
  {
    if items == [] {
      NeutralNested([]);
    } else {
      var comma := if first then "" else ",";
      NeutralNested(comma);
      ElementNested(items[0]);
      ItemsNested(items[1..], false);
      Join(ElementText(items[0]), ItemsText(items[1..], false));
      Join(comma, ElementText(items[0]) + ItemsText(items[1..], false));
    }
  }

  lemma {:induction false} MemberNested(m: Member)
    requires ValidMember(m)
    ensures Nested(MemberText(m))
    decreases m, 3
  {
    var value := ElementText(m.element);
    NeutralNested(m.before);
    NeutralNested(m.between);
    NeutralNested(":");
    StringNested(m.key);
    ElementNested(m.element);
    Join(":", value);
    Join(m.between, ":" + value);
    Join(StringText(m.key), m.between + (":" + value));
    Join(m.before, StringText(m.key) + (m.between + (":" + value)));
  }

  lemma {:induction false} MembersNested(members: seq<Member>, first: bool)
    requires forall i :: 0 <= i < |members| ==> ValidMember(members[i])
    ensures Nested(MembersText(members, first))
    decreases members, 0
  {
    if members == [] {
      NeutralNested([]);
    } else {
      var comma := if first then "" else ",";
      NeutralNested(comma);
      MemberNested(members[0]);
      MembersNested(members[1..], false);
      Join(MemberText(members[0]), MembersText(members[1..], false));
      Join(comma, MemberText(members[0]) + MembersText(members[1..], false));
    }
  }

  // ---- Main result ----

  /** An object or array is returned exactly, whatever follows it and whatever bracket-free
      prose precedes it. */
  lemma ExtractsJson(pre: string, v: Json, suf: string)
    requires OpenerFree(pre) && Valid(v) && (v.Array? || v.Object?)
    ensures Extract(pre + Text(v) + suf) == Some(Text(v))
  {
    var g := ContainerGroup(v);
    ExtractsNested(pre, Text(v), suf);
  }
}
