/**
 Compact JSON text (RFC 8259). A byte string is modelled as a Dafny string whose characters stand for
 the bytes. A string is written unit by unit, each unit in any of the ways section 7 allows: as itself,
 as a short escape, or as \uXXXX with hexadecimal digits of either case. What a string says is the
 sequence of characters its units stand for; an escaped code unit above ASCII is kept apart from raw bytes.
 */
module Json {

  const QUOTE: char := '"'
  const BACKSLASH: char := '\\'

  predicate Structural(c: char) {
    c == '{' || c == '}' || c == '[' || c == ']' || c == ',' || c == ':'
  }

  /** May be written as itself. */
  predicate Plain(c: char) {
    c >= ' ' && c != QUOTE && c != BACKSLASH
  }

  predicate AllPlain(s: string) {
    forall i :: 0 <= i < |s| ==> Plain(s[i])
  }

  // ------------------------------------------------------------------ units of a string

  datatype Form = Lit(c: char) | Short(e: char) | Hex(digits: string)

  predicate AnyHexDigit(c: char) {
    '0' <= c <= '9' || 'a' <= c <= 'f' || 'A' <= c <= 'F'
  }

  predicate ShortName(e: char) {
    e == QUOTE || e == BACKSLASH || e == '/' || e == 'b' || e == 'f' || e == 'n' || e == 'r' || e == 't'
  }

  predicate Allowed(u: Form) {
    match u
    case Lit(c) => Plain(c)
    case Short(e) => ShortName(e)
    case Hex(digits) => |digits| == 4 && forall i :: 0 <= i < 4 ==> AnyHexDigit(digits[i])
  }

  /** One character as it is written. */
  type Unit = u: Form | Allowed(u) witness Lit('a')

  function UnitText(u: Unit): string {
    match u
    case Lit(c) => [c]
    case Short(e) => [BACKSLASH, e]
    case Hex(digits) => [BACKSLASH, 'u'] + digits
  }

  function AnyHexValue(c: char): (n: nat)
    requires AnyHexDigit(c)
    ensures n < 16
  {
    if c <= '9' then c as int - '0' as int
    else if c <= 'F' then c as int - 'A' as int + 10
    else c as int - 'a' as int + 10
  }

  function CodeUnit(digits: string): (n: nat)
    requires Allowed(Hex(digits))
    ensures n < 0x1_0000
  {
    ((AnyHexValue(digits[0]) * 16 + AnyHexValue(digits[1])) * 16 + AnyHexValue(digits[2])) * 16 + AnyHexValue(digits[3])
  }

  /** The character a code unit stands for: ASCII is itself, others lie beyond every byte. */
  function CodeChar(n: nat): char
    requires n < 0x1_0000
  {
    if n < 0x80 then n as char else (0x1_0000 + n) as char
  }

  /** What a unit stands for. */
  function CharOf(u: Unit): char {
    match u
    case Lit(c) => c
    case Short(e) =>
      if e == 'b' then 8 as char
      else if e == 'f' then 12 as char
      else if e == 'n' then 10 as char
      else if e == 'r' then 13 as char
      else if e == 't' then 9 as char
      else e
    case Hex(digits) => CodeChar(CodeUnit(digits))
  }

  /** The text between a written string's quotes. */
  function Esc(t: seq<Unit>): string {
    if t == [] then [] else UnitText(t[0]) + Esc(t[1..])
  }

  /** What a written string says. */
  function Content(t: seq<Unit>): (s: string)
    ensures |s| == |t| && forall i :: 0 <= i < |t| ==> s[i] == CharOf(t[i])
  {
    if t == [] then [] else [CharOf(t[0])] + Content(t[1..])
  }

  /** Every character as itself. */
  function Raws(s: string): (t: seq<Unit>)
    requires AllPlain(s)
    ensures |t| == |s| && forall i :: 0 <= i < |s| ==> t[i] == Lit(s[i])
  {
    if s == [] then [] else [Lit(s[0])] + Raws(s[1..])
  }

  // ------------------------------------------------------------------ how JSON.stringify writes

  function HexDigit(n: nat): (c: char)
    requires n < 16
    ensures AnyHexDigit(c) && AnyHexValue(c) == n
  {
    if n < 10 then '0' + n as char else 'a' + (n - 10) as char
  }

  /** Quote, backslash and control characters are escaped, everything else is itself. */
  function Canon(c: char): (u: Unit)
    ensures CharOf(u) == c
  {
    if c == QUOTE || c == BACKSLASH then Short(c)
    else if c >= ' ' then Lit(c)
    else if c as int == 8 then Short('b')
    else if c as int == 9 then Short('t')
    else if c as int == 10 then Short('n')
    else if c as int == 12 then Short('f')
    else if c as int == 13 then Short('r')
    else Hex(['0', '0', HexDigit(c as int / 16), HexDigit(c as int % 16)])
  }

  function Stringify(s: string): (t: seq<Unit>)
    ensures |t| == |s| && forall i :: 0 <= i < |s| ==> t[i] == Canon(s[i])
  {
    if s == [] then [] else [Canon(s[0])] + Stringify(s[1..])
  }

  /** It says what it was given. */
  lemma StringifySays(s: string)
    ensures Content(Stringify(s)) == s
  {
  }

  lemma StringifyPlain(s: string)
    requires AllPlain(s)
    ensures Stringify(s) == Raws(s) && Content(Raws(s)) == s
  {
  }

  lemma StringifyConcat(s: string, t: string)
    ensures Stringify(s + t) == Stringify(s) + Stringify(t)
  {
    hide Stringify, Canon;
    var x, y := Stringify(s + t), Stringify(s) + Stringify(t);
    assert |x| == |y|;
    assert forall i :: 0 <= i < |x| ==> x[i] == Canon((s + t)[i]) == y[i];
  }

  /** A text as JSON.stringify writes it between quotes. */
  function Js(s: string): string {
    Esc(Stringify(s))
  }

  lemma JsConcat(s: string, t: string)
    ensures Js(s + t) == Js(s) + Js(t)
  {
    StringifyConcat(s, t);
    EscConcat(Stringify(s), Stringify(t));
  }

  lemma JsOfPlain(s: string)
    requires AllPlain(s)
    ensures Js(s) == s
  {
    StringifyPlain(s);
    EscOfPlain(s);
  }

  // ------------------------------------------------------------------ documents

  /** Raw covers numbers, true, false and null. */
  datatype Json = Str(written: seq<Unit>) | Raw(text: string) | Arr(items: seq<Json>) | Obj(members: seq<Member>)
  datatype Member = Member(key: seq<Unit>, value: Json)

  predicate RawChar(c: char) {
    '0' <= c <= '9' || 'a' <= c <= 'z' || c == 'E' || c == '+' || c == '-' || c == '.'
  }

  predicate RawText(s: string) {
    s != [] && forall i :: 0 <= i < |s| ==> RawChar(s[i])
  }

  predicate Wf(j: Json) {
    match j
    case Str(_) => true
    case Raw(text) => RawText(text)
    case Arr(items) => forall i :: 0 <= i < |items| ==> Wf(items[i])
    case Obj(ms) => forall i :: 0 <= i < |ms| ==> Wf(ms[i].value)
  }

  function Enc(j: Json): string
    decreases j, 0
  {
    match j
    case Str(written) => [QUOTE] + Esc(written) + [QUOTE]
    case Raw(text) => text
    case Arr(items) => (if items == [] then "[" else Items(items, '[')) + "]"
    case Obj(ms) => (if ms == [] then "{" else Members(ms, '{')) + "}"
  }

  /** Each item is preceded by the bracket or a comma. */
  function Items(items: seq<Json>, lead: char): string
    decreases items
  {
    if items == [] then [] else [lead] + Enc(items[0]) + Items(items[1..], ',')
  }

  function KeyValue(m: Member): string
    decreases m, 0
  {
    [QUOTE] + Esc(m.key) + [QUOTE, ':'] + Enc(m.value)
  }

  function MemberText(m: Member, lead: char): string
    decreases m, 1
  {
    [lead] + KeyValue(m)
  }

  function Members(ms: seq<Member>, lead: char): string
    decreases ms
  {
    if ms == [] then [] else MemberText(ms[0], lead) + Members(ms[1..], ',')
  }

  /** No two keys say the same. */
  predicate DistinctKeys(ms: seq<Member>) {
    forall i, j :: 0 <= i < j < |ms| ==> Content(ms[i].key) != Content(ms[j].key)
  }

  // ------------------------------------------------------------------ facts about units

  /** A unit is its character, or a backslash and characters that are never structural. */
  lemma UnitShape(u: Unit)
    ensures u.Lit? ==> UnitText(u) == [u.c] && Plain(u.c)
    ensures !u.Lit? ==> |UnitText(u)| >= 2 && UnitText(u)[0] == BACKSLASH
    ensures forall k :: 0 <= k < |UnitText(u)| && (Structural(UnitText(u)[k]) || UnitText(u)[k] < ' ') ==> u.Lit?
    ensures forall k :: 0 <= k < |UnitText(u)| && UnitText(u)[k] == QUOTE ==> u == Short(QUOTE) && k == 1
    ensures forall k :: 2 <= k < |UnitText(u)| ==> UnitText(u)[k] != BACKSLASH
  {
  }

  /** No unit begins another one. */
  lemma UnitCode(u: Unit, v: Unit)
    requires UnitText(u) <= UnitText(v)
    ensures u == v
  {
    var s, t := UnitText(u), UnitText(v);
    assert s[0] == t[0] && (|s| > 1 ==> |t| > 1 && s[1] == t[1]);
    if u.Hex? && v.Hex? {
      assert u.digits == s[2..] && v.digits == t[2..];
    }
  }

  lemma UnitPrefix(u: Unit, v: Unit, r: string, r': string)
    requires UnitText(u) + r == UnitText(v) + r'
    ensures u == v && r == r'
  {
    hide UnitText;
    var s := UnitText(u) + r;
    assert UnitText(u) == s[..|UnitText(u)|] && UnitText(v) == s[..|UnitText(v)|];
    if |UnitText(u)| <= |UnitText(v)| {
      UnitCode(u, v);
    } else {
      UnitCode(v, u);
    }
    assert r == s[|UnitText(u)|..] && r' == s[|UnitText(v)|..];
  }

  lemma {:induction false} EscConcat(s: seq<Unit>, t: seq<Unit>)
    ensures Esc(s + t) == Esc(s) + Esc(t)
  {
    hide UnitText;
    if s == [] {
      assert s + t == t;
    } else {
      assert (s + t)[1..] == s[1..] + t;
      EscConcat(s[1..], t);
    }
  }

  lemma EscSplit(t: seq<Unit>, q: nat)
    requires q <= |t|
    ensures Esc(t) == Esc(t[..q]) + Esc(t[q..])
  {
    assert t == t[..q] + t[q..];
    EscConcat(t[..q], t[q..]);
  }

  lemma EscOne(u: Unit)
    ensures Esc([u]) == UnitText(u)
  {
    assert [u][1..] == [];
  }

  lemma EscSnoc(t: seq<Unit>, q: nat)
    requires q < |t|
    ensures Esc(t[..q + 1]) == Esc(t[..q]) + UnitText(t[q])
  {
    hide UnitText;
    EscConcat(t[..q], [t[q]]);
    assert t[..q + 1] == t[..q] + [t[q]];
    EscOne(t[q]);
  }

  /** Writing loses nothing: the code is prefix-free. */
  lemma {:induction false} EscPrefix(t: seq<Unit>, w: seq<Unit>)
    requires Esc(w) <= Esc(t)
    ensures w <= t
  {
    hide UnitText;
    if w != [] {
      UnitShape(w[0]);
      assert t != [];
      UnitPrefix(t[0], w[0], Esc(t[1..]), Esc(w[1..]) + Esc(t)[|Esc(w)|..]);
      EscPrefix(t[1..], w[1..]);
    }
  }

  lemma EscInjective(s: seq<Unit>, t: seq<Unit>)
    requires Esc(s) == Esc(t)
    ensures s == t
  {
    EscPrefix(s, t);
    EscPrefix(t, s);
  }

  /** The unit that covers index x of the text. */
  function UnitAt(t: seq<Unit>, x: nat): (q: nat)
    requires x < |Esc(t)|
    ensures q < |t| && |Esc(t[..q])| <= x < |Esc(t[..q])| + |UnitText(t[q])|
  {
    if x < |UnitText(t[0])| then
      assert t[..0] == [];
      0
    else
      var q := UnitAt(t[1..], x - |UnitText(t[0])|);
      EscFront(t, q);
      q + 1
  }

  lemma EscFront(t: seq<Unit>, q: nat)
    requires q < |t|
    ensures Esc(t[..q + 1]) == UnitText(t[0]) + Esc(t[1..][..q])
  {
    hide UnitText;
    var s := t[..q + 1];
    assert s[0] == t[0] && s[1..] == t[1..][..q];
  }

  lemma EscAt(t: seq<Unit>, x: nat)
    requires x < |Esc(t)|
    ensures var q := UnitAt(t, x); Esc(t)[x] == UnitText(t[q])[x - |Esc(t[..q])|]
  {
    hide UnitText, UnitAt;
    var q := UnitAt(t, x);
    EscSplit(t, q);
    EscHead(t[q..]);
    assert t[q..][0] == t[q];
  }

  lemma EscHead(t: seq<Unit>)
    requires t != []
    ensures Esc(t) == UnitText(t[0]) + Esc(t[1..])
  {
  }

  /** Structural characters in the text stand for themselves. */
  lemma StructuralAt(t: seq<Unit>, x: nat)
    requires x < |Esc(t)| && Structural(Esc(t)[x])
    ensures var q := UnitAt(t, x); t[q] == Lit(Esc(t)[x]) && |Esc(t[..q])| == x && |Esc(t[..q + 1])| == x + 1
  {
    hide UnitText;
    var q := UnitAt(t, x);
    EscAt(t, x);
    UnitShape(t[q]);
    EscSnoc(t, q);
  }

  /** A quote in the text is always the second half of an escaped quote. */
  lemma QuoteAt(t: seq<Unit>, x: nat)
    requires x < |Esc(t)| && Esc(t)[x] == QUOTE
    ensures x >= 1 && Esc(t)[x - 1] == BACKSLASH
    ensures var q := UnitAt(t, x); t[q] == Short(QUOTE) && |Esc(t[..q])| == x - 1
  {
    hide UnitText;
    var q := UnitAt(t, x);
    EscAt(t, x);
    UnitShape(t[q]);
    EscSplit(t, q);
    EscHead(t[q..]);
  }

  lemma {:induction false} EscOfPlain(s: string)
    requires AllPlain(s)
    ensures Esc(Raws(s)) == s
  {
    if s != [] {
      EscOfPlain(s[1..]);
      assert Raws(s)[1..] == Raws(s[1..]);
    }
  }

  /** Bytes without a backslash that start at a unit's boundary are characters written as themselves. */
  lemma {:induction false} PlainRun(t: seq<Unit>, w: string)
    requires w <= Esc(t) && BACKSLASH !in w
    ensures AllPlain(w) && Raws(w) <= t
  {
    hide UnitText;
    if w != [] {
      assert t != [];
      UnitShape(t[0]);
      assert w[0] == Esc(t)[0] == UnitText(t[0])[0];
      assert w[1..] <= Esc(t[1..]) by {
        assert Esc(t)[1..] == Esc(t[1..]);
      }
      PlainRun(t[1..], w[1..]);
      assert w == [w[0]] + w[1..];
      assert forall i :: 1 <= i < |w| ==> w[i] == w[1..][i - 1];
    }
  }

  /** Written text up to its closing quote is the only plain text up to a quote. */
  lemma UntilQuote(c: seq<Unit>, w: string, s: string)
    requires AllPlain(w)
    requires Esc(c) + [QUOTE] <= s && w + [QUOTE] <= s
    ensures c == Raws(w) && Content(c) == w
  {
    var e := Esc(c);
    assert s[|e|] == QUOTE && s[|w|] == QUOTE;
    assert forall i :: 0 <= i < |w| ==> w[i] == s[i];
    assert forall i :: 0 <= i < |e| ==> e[i] == s[i];
    if |w| < |e| {
      QuoteAt(c, |w|);
    } else if |e| == |w| {
      assert e == w;
      EscOfPlain(w);
      EscInjective(c, Raws(w));
      StringifyPlain(w);
    }
  }
}
