/**
 An object the circuit sees and the array does not have: it starts at a brace in a string of one account
 and ends at a brace in a string of the next, because the braces between them are written as escapes.
 */
module Splices {
  import opened Json
  import opened Scan
  import opened Locate
  import opened Circuit
  import opened Soundness
  import opened Witness
  import opened Completeness
  import opened BuilderProofs

  // ------------------------------------------------------------------ the object

  /**
   A stretch of the array's writing that passes for one object: a brace and a comma around a type member
   and an address member, no brace written as itself between them.
   */
  datatype Splice = Splice(before: seq<Unit>, head: seq<Unit>, gap: seq<Unit>, tail: seq<Unit>, after: seq<Unit>)

  function TypeMember(): seq<Unit> {
    Requoted("type", TypeName(0))
  }

  function ValueMember(): seq<Unit> {
    Requoted(KeyName(0), "v")
  }

  function Inside(s: Splice): seq<Unit> {
    s.head + TypeMember() + s.gap + ValueMember() + s.tail
  }

  function Open(): seq<Unit> { [Lit('{')] }

  function Shut(): seq<Unit> { [Lit('}')] }

  function Comma(): seq<Unit> { [Lit(',')] }

  function HiddenOpen(): seq<Unit> { [Hex("007b")] }

  function HiddenShut(): seq<Unit> { [Hex("007d")] }

  function Whole(s: Splice): seq<Unit> {
    s.before + (Open() + Inside(s) + Shut()) + s.after
  }

  predicate EndsIn(t: seq<Unit>, c: char) {
    t != [] && t[|t| - 1] == Lit(c)
  }

  ghost predicate Passes(s: Splice) {
    && (EndsIn(s.before, '[') || EndsIn(s.before, ',')) && Braces(Esc(s.before)) == 0
    && (s.head == [] || EndsIn(s.head, ',')) && NoBraces(Esc(s.head))
    && EndsIn(s.gap, ',') && NoBraces(Esc(s.gap))
    && NoBraces(Esc(s.tail))
    && s.after != [] && (s.after[0] == Lit(',') || s.after[0] == Lit(']'))
  }

  lemma EscEnd(t: seq<Unit>, c: char)
    requires Plain(c) && EndsIn(t, c)
    ensures Esc(t) != [] && Esc(t)[|Esc(t)| - 1] == c
  {
    hide Esc, UnitText;
    EscSnoc(t, |t| - 1);
    assert t[..|t| - 1 + 1] == t;
    UnitShape(t[|t| - 1]);
  }

  lemma MembersText()
    ensures Esc(TypeMember()) == Pattern("type", TypeName(0)) && Esc(ValueMember()) == Pattern(KeyName(0), "v")
    ensures NoBraces(Esc(TypeMember())) && NoBraces(Esc(ValueMember()))
    ensures InLimits("v") && AllPlain("v")
  {
    hide Esc, Stringify, Requoted;
    PatternIsJs("type", TypeName(0));
    PatternIsJs(KeyName(0), "v");
  }

  lemma NoBracesConcat(s: string, t: string)
    requires NoBraces(s) && NoBraces(t)
    ensures NoBraces(s + t)
  {
  }

  /** The stretch's bytes. */
  lemma InsideText(s: Splice)
    requires Passes(s)
    ensures Esc(Inside(s)) == Esc(s.head) + Esc(TypeMember()) + Esc(s.gap) + Esc(ValueMember()) + Esc(s.tail)
    ensures NoBraces(Esc(Inside(s)))
  {
    hide Esc, TypeMember, ValueMember, NoBraces;
    EscConcat(s.head, TypeMember());
    EscConcat(s.head + TypeMember(), s.gap);
    EscConcat(s.head + TypeMember() + s.gap, ValueMember());
    EscConcat(s.head + TypeMember() + s.gap + ValueMember(), s.tail);
    MembersText();
    NoBracesConcat(Esc(s.head), Esc(TypeMember()));
    NoBracesConcat(Esc(s.head) + Esc(TypeMember()), Esc(s.gap));
    NoBracesConcat(Esc(s.head) + Esc(TypeMember()) + Esc(s.gap), Esc(ValueMember()));
    NoBracesConcat(Esc(s.head) + Esc(TypeMember()) + Esc(s.gap) + Esc(ValueMember()), Esc(s.tail));
  }

  lemma WholeText(s: Splice)
    ensures Esc(Whole(s)) == Esc(s.before) + "{" + Esc(Inside(s)) + "}" + Esc(s.after)
  {
    hide Esc, Inside;
    var x, open, close: seq<Unit> := Inside(s), [Lit('{')], [Lit('}')];
    EscOne(Lit('{'));
    EscOne(Lit('}'));
    EscConcat(open, x);
    EscConcat(open + x, close);
    EscConcat(s.before, open + x + close);
    EscConcat(s.before + (open + x + close), s.after);
    assert Esc(open + x + close) == "{" + Esc(x) + "}";
  }

  /** The offsets of the stretch. */
  function SplicedRef(la: nat, s: Splice): AccountRef {
    var start := la + |Esc(s.before)|;
    var typeIdx := start + 1 + |Esc(s.head)|;
    var valueIdx := typeIdx + |Esc(TypeMember())| + |Esc(s.gap)|;
    AccountRef(start, start + 1 + |Esc(Inside(s))|, typeIdx, valueIdx, 1)
  }

  /** Where the pieces stand in the payload. */
  lemma PiecesStand(data: string, la: nat, s: Splice)
    requires Passes(s) && BytesAt(data, la, Esc(Whole(s)))
    ensures var a := SplicedRef(la, s);
            && BytesAt(data, la, Esc(s.before)) && BytesAt(data, a.start, "{")
            && BytesAt(data, a.start + 1, Esc(Inside(s)))
            && BytesAt(data, a.end, "}") && BytesAt(data, a.end + 1, Esc(s.after))
            && BytesAt(data, a.start + 1, Esc(s.head)) && BytesAt(data, a.typeIdx, Esc(TypeMember()))
            && BytesAt(data, a.typeIdx + |Esc(TypeMember())|, Esc(s.gap))
            && BytesAt(data, a.valueIdx, Esc(ValueMember()))
            && a.valueIdx + |Esc(ValueMember())| <= a.end
  {
    hide Esc, TypeMember, ValueMember, Inside, Whole, BytesAt, Passes;
    WholeText(s);
    InsideText(s);
    var b, x := Esc(s.before), Esc(Inside(s));
    Shorten(data, la, b + "{" + x + "}", Esc(s.after));
    Shorten(data, la, b + "{" + x, "}");
    Shorten(data, la, b + "{", x);
    Shorten(data, la, b, "{");
    var h, t, g, v := Esc(s.head), Esc(TypeMember()), Esc(s.gap), Esc(ValueMember());
    var i := la + |b| + 1;
    Shorten(data, i, h + t + g + v, Esc(s.tail));
    Shorten(data, i, h + t + g, v);
    Shorten(data, i, h + t, g);
    Shorten(data, i, h, t);
  }

  lemma LastByte(s: string, i: nat, p: string)
    requires BytesAt(s, i, p) && p != []
    ensures i + |p| - 1 < |s| && s[i + |p| - 1] == p[|p| - 1]
  {
    assert s[i + |p| - 1] == s[i..i + |p|][|p| - 1];
  }

  /** Both members start after a comma or the brace. */
  lemma StretchStarts(data: string, la: nat, s: Splice)
    requires Passes(s) && BytesAt(data, la, Esc(Whole(s)))
    ensures var a := SplicedRef(la, s);
            && la < a.start && a.end + 1 < |data| && data[a.start] == '{' && data[a.end] == '}'
            && (data[a.start - 1] == '[' || data[a.start - 1] == ',')
            && (data[a.end + 1] == ',' || data[a.end + 1] == ']')
            && IsMemberStart(data, a.typeIdx) && IsMemberStart(data, a.valueIdx)
  {
    hide Esc, TypeMember, ValueMember, Inside, Whole, BytesAt;
    PiecesStand(data, la, s);
    var a := SplicedRef(la, s);
    if EndsIn(s.before, '[') { EscEnd(s.before, '['); } else { EscEnd(s.before, ','); }
    LastByte(data, la, Esc(s.before));
    FirstByte(data, a.start, "{");
    FirstByte(data, a.end, "}");
    AfterFirst(s.after);
    FirstByte(data, a.end + 1, Esc(s.after));
    EscEnd(s.gap, ',');
    LastByte(data, a.typeIdx + |Esc(TypeMember())|, Esc(s.gap));
    if s.head != [] {
      EscEnd(s.head, ',');
      LastByte(data, a.start + 1, Esc(s.head));
    } else {
      EscNothing();
    }
  }

  lemma EscNothing()
    ensures Esc([]) == []
  {
  }

  lemma AfterFirst(t: seq<Unit>)
    requires t != [] && t[0].Lit?
    ensures Esc(t) != [] && Esc(t)[0] == t[0].c
  {
    hide UnitText;
    UnitShape(t[0]);
  }

  /** The circuit takes such a stretch for an email account with the address v. */
  lemma SplicePasses(data: string, len: nat, la: nat, s: Splice)
    requires Passes(s) && ArrayIn(data, len, la, Whole(s))
    ensures AccountOk(data, len, la, SplicedRef(la, s), 0) && ValueOf(data, SplicedRef(la, s), 0) == "v"
  {
    hide Esc, TypeMember, ValueMember, Inside, Whole, BytesAt, Braces, At, Passes, TypeName, KeyName, SplicedRef;
    var a := SplicedRef(la, s);
    StretchBounds(data, len, la, s);
    StretchRange(data, len, la, s);
    StretchHits(data, len, la, s);
    TypeHitOk(data, len, a, 0);
    MembersText();
    ValueHitOk(data, len, a, 0, "v");
  }

  lemma StretchBounds(data: string, len: nat, la: nat, s: Splice)
    requires Passes(s) && ArrayIn(data, len, la, Whole(s))
    ensures Bounded(data, len, la, SplicedRef(la, s))
    ensures SplicedRef(la, s).end < la + |Esc(Whole(s))|
  {
    hide Esc, TypeMember, ValueMember, Inside, Whole, BytesAt, Braces, At, Passes;
    StretchStarts(data, la, s);
    WholeText(s);
  }

  lemma StretchRange(data: string, len: nat, la: nat, s: Splice)
    requires Passes(s) && ArrayIn(data, len, la, Whole(s)) && Bounded(data, len, la, SplicedRef(la, s))
    requires SplicedRef(la, s).end < la + |Esc(Whole(s))|
    ensures RangeOk(data, len, la, SplicedRef(la, s).start, SplicedRef(la, s).end)
  {
    hide Esc, TypeMember, ValueMember, Inside, Whole, Braces, At;
    PiecesStand(data, la, s);
    InsideText(s);
    var a, x := SplicedRef(la, s), Esc(Inside(s));
    forall i | a.start + 1 <= i < a.end
      ensures data[i] != '{' && data[i] != '}'
    {
      assert data[i] == data[a.start + 1..a.start + 1 + |x|][i - a.start - 1];
    }
    assert data[la..a.start] == Esc(s.before);
  }

  lemma StretchHits(data: string, len: nat, la: nat, s: Splice)
    requires Passes(s) && ArrayIn(data, len, la, Whole(s)) && Bounded(data, len, la, SplicedRef(la, s))
    ensures var a := SplicedRef(la, s);
            && MemberHit(data[..len], Pattern("type", TypeName(0)), a.start, a.end, a.typeIdx)
            && MemberHit(data[..len], Pattern(KeyName(0), "v"), a.start, a.end, a.valueIdx)
            && a.valueLen == |"v"|
  {
    hide Esc, TypeMember, ValueMember, Inside, Whole, At, Passes, TypeName, KeyName, Pattern;
    PiecesStand(data, la, s);
    StretchStarts(data, la, s);
    MembersText();
    var a := SplicedRef(la, s);
    Cut(data, len, a.typeIdx, Esc(TypeMember()));
    Cut(data, len, a.valueIdx, Esc(ValueMember()));
  }

  lemma Cut(data: string, len: nat, i: nat, p: string)
    requires len <= |data| && i + |p| <= len && BytesAt(data, i, p)
    ensures BytesAt(data[..len], i, p)
  {
    assert data[..len][i..i + |p|] == data[i..i + |p|];
  }

  // ------------------------------------------------------------------ a token that holds it

  const DIGITS := "1788916490"

  function Claims(w: seq<Unit>): seq<Member> {
    [Member(Stringify(LINKED_ACCOUNTS), Str(w)), Member(Stringify(IAT), Raw(DIGITS))]
  }

  lemma KeysDiffer()
    ensures Content(Stringify(LINKED_ACCOUNTS)) == LINKED_ACCOUNTS && Content(Stringify(IAT)) == IAT
    ensures LINKED_ACCOUNTS != IAT
  {
    hide Stringify, Content;
    StringifySays(LINKED_ACCOUNTS);
    StringifySays(IAT);
    assert LINKED_ACCOUNTS[0] != IAT[0];
  }

  lemma TwoKeys(ms: seq<Member>)
    requires |ms| == 2 && Content(ms[0].key) != Content(ms[1].key)
    ensures DistinctKeys(ms)
  {
  }

  lemma ClaimsAreToken(accts: seq<Json>, w: seq<Unit>)
    requires Content(w) == Enc(Arr(accts)) && forall i :: 0 <= i < |accts| ==> FlatAccount(accts[i])
    ensures Token(Enc(Obj(Claims(w))), Claims(w), accts, w)
    ensures forall i :: 0 <= i < |Claims(w)| ==> Scalar(Claims(w)[i].value)
    ensures Digits(DIGITS) && |DIGITS| == TS_DIGITS && Member(Stringify(IAT), Raw(DIGITS)) in Claims(w)
  {
    hide Enc, FlatAccount, Stringify, Content;
    var ms := Claims(w);
    KeysDiffer();
    assert RawText(DIGITS) && Digits(DIGITS);
    assert |ms| == 2 && ms[0] == Member(Stringify(LINKED_ACCOUNTS), Str(w))
           && ms[1] == Member(Stringify(IAT), Raw(DIGITS));
    TwoKeys(ms);
    assert Wf(Obj(ms));
    assert ms[1] in ms;
  }

  lemma SplicedToken(accts: seq<Json>, s: Splice) returns (data: string, off: Offsets)
    requires Passes(s) && Whole(s) != [] && Whole(s)[0] == Lit('[')
    requires Content(Whole(s)) == Enc(Arr(accts)) && forall i :: 0 <= i < |accts| ==> FlatAccount(accts[i])
    ensures data == Enc(Obj(Claims(Whole(s)))) && Token(data[..|data|], Claims(Whole(s)), accts, Whole(s))
    ensures Accepts(data, |data|, off, 0, 0) && ValueOf(data, off.account, 0) == "v" && off.wallet.valueLen == 0
  {
    hide *;
    var w := Whole(s);
    var ms := Claims(w);
    data := Enc(Obj(ms));
    ClaimsAreToken(accts, w);
    assert data[..|data|] == data;
    TokenArray(data, ms, accts, w);
    AccountsKey();
    ClaimsKey(w);
    var p := StringFound(data, |data|, ms, w, 0, LINKED_ACCOUNTS);
    var la := p + |LINKED_ACCOUNTS_KEY|;
    SplicePasses(data, |data|, la, s);
    FirstUnit(data, |data|, la, w);
    IatFound(data, |data|, ms, DIGITS);
    ScanEnds(data, |data|, ms);
    AccountsSpan(data, |data|, p);
    var iat := FirstTop(data[..|data|], IAT_KEY, 0).value;
    off := Offsets(iat, p, SplicedRef(la, s), AccountRef(0, 0, 0, 0, 0));
    AcceptsParts(data, |data|, off, 0, 0);
  }

  lemma TokenArray(payload: string, ms: seq<Member>, accts: seq<Json>, w: seq<Unit>)
    requires Token(payload, ms, accts, w)
    ensures payload == Enc(Obj(ms)) && Wf(Obj(ms)) && DistinctKeys(ms)
    ensures forall i :: 0 <= i < |ms| && Content(ms[i].key) == LINKED_ACCOUNTS ==> ms[i].value == Str(w)
  {
  }

  lemma ClaimsKey(w: seq<Unit>)
    ensures |Claims(w)| == 2 && Claims(w)[0].key == Stringify(LINKED_ACCOUNTS)
  {
  }

  lemma FirstUnit(data: string, len: nat, la: nat, w: seq<Unit>)
    requires ArrayIn(data, len, la, w) && w != [] && w[0] == Lit('[')
    ensures la < |data| && data[la] == '['
  {
    hide Esc, At;
    AfterFirst(w);
    FirstByte(data, la, Esc(w));
  }
}
