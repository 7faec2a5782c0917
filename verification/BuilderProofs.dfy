/**
 The completeness theorem: on a tame token the builder succeeds exactly when what it is asked for is
 listed, and every offset it returns passes every check of the circuit.
 */
module BuilderProofs {
  import opened Types
  import opened Encoding
  import opened Json
  import opened Scan
  import opened Documents
  import opened Locate
  import opened Circuit
  import opened Soundness
  import opened Witness
  import opened Completeness

  // ------------------------------------------------------------------ walking the objects

  lemma OneByte(s: string, i: nat, c: char)
    ensures BytesAt(s, i, [c]) <==> i < |s| && s[i] == c
  {
    if i < |s| {
      assert s[i..i + 1] == [s[i]];
    }
  }

  lemma FirstOf(s: string, c: char, pos: nat, at: nat)
    requires pos <= at < |s| && s[at] == c && forall k :: pos <= k < at ==> s[k] != c
    ensures IndexOf(s, [c], pos) == Some(at)
  {
    var r := IndexOf(s, [c], pos);
    OneByte(s, at, c);
    if r.Some? {
      OneByte(s, r.value, c);
    }
  }

  /** After a bracket or comma the next object is the one that follows. */
  lemma NextIs(payload: string, pos: nat, laEnd: nat, lead: char, inner: string)
    requires lead != '{' && NoBraces(inner) && BytesAt(payload, pos, [lead] + ("{" + inner + "}"))
             && pos + |inner| + 2 < laEnd
    ensures NextObject(payload, pos, laEnd) == Some(Span(pos + 1, pos + |inner| + 2))
  {
    hide IndexOf;
    var t := [lead] + ("{" + inner + "}");
    var u := payload[pos..pos + |t|];
    assert u == t;
    assert forall k :: 0 <= k < |u| ==> u[k] == payload[pos + k];
    assert u[0] == t[0] && u[1] == '{' && u[|inner| + 2] == '}';
    FirstOf(payload, '{', pos, pos + 1);
    forall k | pos + 1 <= k < pos + |inner| + 2
      ensures payload[k] != '}'
    {
      assert payload[k] == u[k - pos];
      assert k > pos + 1 ==> t[k - pos] == inner[k - pos - 2];
    }
    FirstOf(payload, '}', pos + 1, pos + |inner| + 2);
    assert "{" == ['{'] && "}" == ['}'];
  }

  /** At the closing bracket there is none before the string ends. */
  lemma NoNext(payload: string, pos: nat, laEnd: nat)
    requires pos <= laEnd <= |payload| && forall k :: pos <= k < laEnd ==> payload[k] != '{'
    ensures NextObject(payload, pos, laEnd).None?
  {
    var r := IndexOf(payload, "{", pos);
    if r.Some? {
      OneByte(payload, r.value, '{');
    }
  }

  lemma EscItems(accts: seq<Json>, lead: char)
    requires accts != [] && Plain(lead)
    ensures Js(Items(accts, lead)) == [lead] + Js(Enc(accts[0])) + Js(Items(accts[1..], ','))
  {
    hide Js, Enc;
    JsConcat([lead], Enc(accts[0]));
    JsConcat([lead] + Enc(accts[0]), Items(accts[1..], ','));
    JsOfPlain([lead]);
  }

  /** Where a chosen object stands: an account's text, a direct element of the array. */
  ghost predicate InPlace(payload: string, pos: nat, span: Span, acct: Json) {
    && pos < span.start < span.end && span.end + 1 < |payload|
    && payload[span.start..span.end + 1] == Js(Enc(acct))
    && (payload[span.start - 1] == '[' || payload[span.start - 1] == ',')
    && (payload[span.end + 1] == ',' || payload[span.end + 1] == ']')
    && Braces(payload[pos..span.start]) == 0
  }

  ghost predicate ListsBoth(acct: Json, k1: string, v1: string, k2: string, v2: string) {
    Lists(acct, k1, v1) && Lists(acct, k2, v2)
  }

  function ArrayTail(accts: seq<Json>, lead: char): string {
    Js(Items(accts, lead)) + ("]" + [QUOTE])
  }

  lemma TailStarts(accts: seq<Json>)
    ensures |ArrayTail(accts, ',')| >= 2 && (ArrayTail(accts, ',')[0] == ',' || ArrayTail(accts, ',')[0] == ']')
    ensures accts == [] ==> ArrayTail(accts, ',') == "]" + [QUOTE]
  {
    hide Js;
    if accts != [] {
      EscItems(accts, ',');
    } else {
      JsOfPlain([]);
    }
  }

  lemma FirstText(payload: string, pos: nat, accts: seq<Json>, lead: char)
    requires accts != [] && (lead == '[' || lead == ',') && BytesAt(payload, pos, ArrayTail(accts, lead))
    ensures var e, rest := Js(Enc(accts[0])), ArrayTail(accts[1..], ',');
            && BytesAt(payload, pos, [lead] + e) && BytesAt(payload, pos + 1, e)
            && BytesAt(payload, pos + 1 + |e|, rest)
            && |ArrayTail(accts, lead)| == 1 + |e| + |rest|
  {
    hide Js, Enc, Items;
    var e, rest := Js(Enc(accts[0])), ArrayTail(accts[1..], ',');
    EscItems(accts, lead);
    assert ArrayTail(accts, lead) == ([lead] + e) + rest;
    Shorten(payload, pos, [lead] + e, rest);
    Shorten(payload, pos, [lead], e);
  }

  /** The first object and what follows it. */
  lemma FirstObject(payload: string, pos: nat, laEnd: nat, accts: seq<Json>, lead: char) returns (span: Span)
    requires accts != [] && TameAccount(accts[0]) && (lead == '[' || lead == ',')
    requires BytesAt(payload, pos, ArrayTail(accts, lead)) && laEnd == pos + |ArrayTail(accts, lead)|
    ensures NextObject(payload, pos, laEnd) == Some(span) && InPlace(payload, pos, span, accts[0])
    ensures BytesAt(payload, span.end + 1, ArrayTail(accts[1..], ','))
            && laEnd == span.end + 1 + |ArrayTail(accts[1..], ',')|
    ensures Braces(payload[pos..span.end + 1]) == 0 && span.end + 1 < laEnd
  {
    hide Js, Enc, TameAccount, NextObject, Braces, ArrayTail;
    var inner := AccountShape(accts[0]);
    var e, rest := Js(Enc(accts[0])), ArrayTail(accts[1..], ',');
    FirstText(payload, pos, accts, lead);
    TailStarts(accts[1..]);
    span := Span(pos + 1, pos + |e|);
    NextIs(payload, pos, laEnd, lead, Js(inner));
    FirstByte(payload, pos, [lead] + e);
    FirstByte(payload, pos + 1 + |e|, rest);
    AccountBalanced(lead, Js(inner));
    LeadBalanced(lead);
    assert payload[pos..pos + 1] == [lead];
  }

  lemma FirstByte(s: string, i: nat, p: string)
    requires BytesAt(s, i, p) && p != []
    ensures i < |s| && s[i] == p[0]
  {
    assert s[i] == s[i..i + |p|][0];
  }

  lemma LeadBalanced(lead: char)
    requires lead != '{' && lead != '}'
    ensures Braces([lead]) == 0
  {
  }

  lemma InPlaceFrom(payload: string, pos: nat, mid: nat, span: Span, acct: Json)
    requires pos <= mid <= |payload| && Braces(payload[pos..mid]) == 0 && InPlace(payload, mid, span, acct)
    ensures InPlace(payload, pos, span, acct)
  {
    hide Js, Enc;
    BracesConcat(payload[pos..mid], payload[mid..span.start]);
    assert payload[pos..span.start] == payload[pos..mid] + payload[mid..span.start];
  }

  /** The search walks the accounts in order and stops at the first that lists both members. */
  lemma {:induction false} ChosenAccount(payload: string, pos: nat, laEnd: nat, accts: seq<Json>, lead: char,
                                         k1: string, v1: string, k2: string, v2: string) returns (i: nat)
    requires forall j :: 0 <= j < |accts| ==> TameAccount(accts[j])
    requires Name(k1) && AllPlain(v1) && Name(k2) && AllPlain(v2) && (lead == '[' || lead == ',')
    requires BytesAt(payload, pos, ArrayTail(accts, lead)) && laEnd == pos + |ArrayTail(accts, lead)|
    ensures var r := Chosen(payload, pos, laEnd, Pattern(k1, v1), Pattern(k2, v2));
            && (r.None? ==> forall j :: 0 <= j < |accts| ==> !ListsBoth(accts[j], k1, v1, k2, v2))
            && (r.Some? ==>
                  i < |accts| && ListsBoth(accts[i], k1, v1, k2, v2) && InPlace(payload, pos, r.value, accts[i])
                  && r.value.end + 1 < laEnd)
    decreases |accts|
  {
    hide Js, Enc, TameAccount, NextObject, Braces, Pattern, Includes, Lists, Name, AllPlain, BytesAt, ArrayTail,
         InPlace;
    i := 0;
    if accts == [] {
      ArrayEnds(payload, pos, laEnd, lead);
    } else {
      var span := FirstObject(payload, pos, laEnd, accts, lead);
      IncludesMeansLists(accts[0], k1, v1);
      IncludesMeansLists(accts[0], k2, v2);
      SpanText(payload, pos, span, accts[0]);
      if !ListsBoth(accts[0], k1, v1, k2, v2) {
        i := ChosenAccount(payload, span.end + 1, laEnd, accts[1..], ',', k1, v1, k2, v2);
        var r := Chosen(payload, span.end + 1, laEnd, Pattern(k1, v1), Pattern(k2, v2));
        if r.Some? {
          InPlaceFrom(payload, pos, span.end + 1, r.value, accts[1..][i]);
        }
        assert forall j :: 1 <= j < |accts| ==> accts[j] == accts[1..][j - 1];
        i := i + 1;
      }
    }
  }

  lemma SpanText(payload: string, pos: nat, span: Span, acct: Json)
    requires InPlace(payload, pos, span, acct)
    ensures span.start < span.end + 1 <= |payload| && payload[span.start..span.end + 1] == Js(Enc(acct))
  {
  }

  lemma ArrayEnds(payload: string, pos: nat, laEnd: nat, lead: char)
    requires BytesAt(payload, pos, ArrayTail([], lead)) && laEnd == pos + |ArrayTail([], lead)|
    ensures NextObject(payload, pos, laEnd).None?
  {
    var t := ArrayTail([], lead);
    assert t == "]" + [QUOTE];
    assert payload[pos] == payload[pos..pos + 2][0] && payload[pos + 1] == payload[pos..pos + 2][1];
    NoNext(payload, pos, laEnd);
  }

  // ------------------------------------------------------------------ hits in the chosen object

  /** The first member hit of a listed member's pattern. */
  lemma HitExists(payload: string, pos: nat, span: Span, acct: Json, key: string, value: string)
    requires InPlace(payload, pos, span, acct) && TameAccount(acct) && Name(key) && AllPlain(value)
             && Lists(acct, key, value)
    ensures FirstMember(payload, Pattern(key, value), span.start, span.end).Some?
    ensures payload[span.start] == '{' && payload[span.end] == '}' && BraceFree(payload, span.start + 1, span.end)
  {
    hide Js, Enc, TameAccount, Pattern, Lists, Braces;
    var e, s, p := Js(Enc(acct)), span.start, Pattern(key, value);
    var y := ListedIsThere(acct, key, value);
    PatternInAccount(acct, y, key, value);
    SliceOfSlice(payload, s, span.end + 1, y, y + |p|);
    assert e[y - 1] == payload[s + y - 1];
    assert MemberHit(payload, p, s, span.end, s + y);
    var inner := AccountShape(acct);
    assert forall k :: 0 <= k < |e| ==> e[k] == payload[s + k];
    forall k | s + 1 <= k < span.end
      ensures payload[k] != '{' && payload[k] != '}'
    {
      assert e[k - s] == Js(inner)[k - s - 1];
    }
  }

  lemma Padded(data: string, len: nat, i: nat, p: string)
    requires len <= |data| && BytesAt(data[..len], i, p)
    ensures BytesAt(data, i, p)
  {
    assert data[..len][i..i + |p|] == data[i..i + |p|];
  }

  lemma TypeHitOk(data: string, len: nat, a: AccountRef, id: nat)
    requires len <= |data| && id < NUM_TYPES && a.start < len && data[a.start] == '{'
    requires MemberHit(data[..len], Pattern("type", TypeName(id)), a.start, a.end, a.typeIdx)
    ensures TypeOk(data, a, id)
  {
    hide TypeName;
    var n := TypeName(id);
    assert Pattern("type", n) == (TYPE_KEY_ESC + n) + QUOTE_ESC;
    Padded(data, len, a.typeIdx, Pattern("type", n));
    Shorten(data, a.typeIdx, TYPE_KEY_ESC + n, QUOTE_ESC);
    Shorten(data, a.typeIdx, TYPE_KEY_ESC, n);
    assert data[a.typeIdx] == data[a.typeIdx..a.typeIdx + |TYPE_KEY_ESC|][0] == BACKSLASH;
  }

  /** The five pieces of a written value member. */
  lemma PatternAt(data: string, i: nat, key: string, value: string)
    requires BytesAt(data, i, Pattern(key, value))
    ensures var s := i + 2 + |key| + |KEY_VALUE_SEP_ESC|;
            && BytesAt(data, i, QUOTE_ESC) && BytesAt(data, i + 2, key)
            && BytesAt(data, i + 2 + |key|, KEY_VALUE_SEP_ESC)
            && BytesAt(data, s, value) && BytesAt(data, s + |value|, QUOTE_ESC)
            && s + |value| + 2 == i + |Pattern(key, value)|
  {
    var h1, h2 := QUOTE_ESC + key, QUOTE_ESC + key + KEY_VALUE_SEP_ESC;
    assert Pattern(key, value) == (h2 + value) + QUOTE_ESC;
    Shorten(data, i, h2 + value, QUOTE_ESC);
    Shorten(data, i, h2, value);
    Shorten(data, i, h1, KEY_VALUE_SEP_ESC);
    Shorten(data, i, QUOTE_ESC, key);
  }

  lemma ValueHitOk(data: string, len: nat, a: AccountRef, id: nat, value: string)
    requires len <= |data| && id < NUM_TYPES && a.start < len && data[a.start] == '{'
    requires MemberHit(data[..len], Pattern(KeyName(id), value), a.start, a.end, a.valueIdx)
    requires a.valueLen == |value| && InLimits(value) && AllPlain(value)
    ensures ValueOk(data, a, id) && ValueOf(data, a, id) == value
  {
    hide KeyName, Pattern;
    Padded(data, len, a.valueIdx, Pattern(KeyName(id), value));
    PatternAt(data, a.valueIdx, KeyName(id), value);
    FirstByte(data, a.valueIdx, QUOTE_ESC);
    var s := ValueStart(a, id);
    forall i | s <= i < s + |value|
      ensures data[i] != BACKSLASH
    {
      assert data[i] == data[s..s + |value|][i - s];
    }
  }

  // ------------------------------------------------------------------ the array in the payload

  /** The array's text in the payload, all of it and its closing quote inside the string. */
  ghost predicate ArrayIn(data: string, len: nat, la: nat, w: seq<Unit>) {
    ArrayAt(data, len, la, w) && forall i :: la <= i <= la + |Esc(w)| ==> At(data[..len], i).inside
  }

  /** A top-level string's text, and its closing quote, lie inside. */
  lemma StringInside(payload: string, p: nat, m: Member, k: nat)
    requires p <= |payload| && KeyValue(m) <= payload[p..] && m.value.Str? && TopLevelAt(payload, p)
    requires k <= |Esc(m.value.written)| && p + |KeyValue(m)| <= |payload|
    ensures At(payload, p + |Esc(m.key)| + 4 + k).inside
  {
    hide Run, Esc;
    var name, v := [QUOTE] + Esc(m.key) + [QUOTE], [QUOTE] + Esc(m.value.written) + [QUOTE];
    RunBounds(payload[..p]);
    assert At(payload, p) == Out(1);
    StringMarks(m.key, 1);
    assert name[..|name|] == name;
    RunOne(Out(1), ':');
    StringMarks(m.value.written, 1);
    var head := name + [':'];
    RunConcat(Out(1), name, [':']);
    var x := p + |head| + 1 + k;
    assert KeyValue(m) == head + v;
    assert payload[p..][..|head| + 1 + k] == KeyValue(m)[..|head| + 1 + k] == head + v[..1 + k];
    assert payload[..x] == payload[..p] + (head + v[..1 + k]);
    RunConcat(START, payload[..p], head + v[..1 + k]);
    RunConcat(Out(1), head, v[..1 + k]);
  }

  lemma ArrayIsIn(data: string, len: nat, ms: seq<Member>, w: seq<Unit>, p: nat, key: string)
    requires len <= |data| && data[..len] == Enc(Obj(ms)) && Wf(Obj(ms)) && AllPlain(key)
    requires forall i :: 0 <= i < |ms| && Content(ms[i].key) == key ==> ms[i].value == Str(w)
    requires p < len && TopLevelAt(data[..len], p) && IsMemberStart(data, p)
    requires BytesAt(data, p, [QUOTE] + key + [QUOTE, ':'])
    ensures ArrayIn(data, len, p + |key| + 4, w)
  {
    hide At, Enc, Esc, Members, Content, Raws;
    ArrayValue(data, len, ms, w, p, key);
    var i := TopKey(data, len, ms, p, key);
    MemberWritten(data, len, p, ms[i], key);
    var e, la := Esc(w), p + |key| + 4;
    forall x | la <= x <= la + |e|
      ensures At(data[..len], x).inside
    {
      StringInside(data[..len], p, ms[i], x - la);
    }
  }

  lemma EndOfArray(data: string, len: nat, la: nat, w: seq<Unit>)
    requires ArrayIn(data, len, la, w)
    ensures StringEnd(data[..len], la) == la + |Esc(w)| + 1
  {
    hide At, Esc;
    EndIsUnique(data[..len], la, la + |Esc(w)| + 1);
  }

  /** The bytes from the array's bracket to the string's closing quote. */
  lemma TailInPayload(data: string, len: nat, la: nat, accts: seq<Json>)
    requires ArrayIn(data, len, la, Stringify(Enc(Arr(accts)))) && accts != []
    ensures BytesAt(data[..len], la, ArrayTail(accts, '[')) && |ArrayTail(accts, '[')| == |Js(Enc(Arr(accts)))| + 1
  {
    hide At, Esc, Items, Stringify;
    var e := Js(Enc(Arr(accts)));
    JsConcat(Items(accts, '['), "]");
    JsOfPlain("]");
    assert ArrayTail(accts, '[') == e + [QUOTE];
    var n := la + |e|;
    assert data[..len][la..n + 1] == data[la..n] + [data[n]];
  }

  /** The array starts with its bracket. */
  lemma ArrayOpens(data: string, len: nat, la: nat, accts: seq<Json>)
    requires ArrayAt(data, len, la, Stringify(Enc(Arr(accts))))
    ensures data[la] == '[' && la + 1 < len
    ensures accts == [] ==> forall k :: la <= k < la + |Js(Enc(Arr(accts)))| + 1 ==> data[k] != '{'
  {
    hide At, Js, Items, Enc;
    var t := Enc(Arr(accts));
    ArrayHead(accts);
    var e, rest := Js(t), t[1..];
    assert t == "[" + rest;
    JsConcat("[", rest);
    JsOfPlain("[");
    JsIsEsc(t);
    assert e[0] == data[la..la + |e|][0];
    if accts == [] {
      JsOfPlain("[]");
      assert e[1] == data[la..la + |e|][1];
    }
  }

  lemma JsIsEsc(t: string)
    ensures Js(t) == Esc(Stringify(t))
  {
  }

  lemma ArrayHead(accts: seq<Json>)
    ensures Enc(Arr(accts)) != [] && Enc(Arr(accts))[0] == '[' && (accts == [] ==> Enc(Arr(accts)) == "[]")
  {
    assert accts != [] ==> Items(accts, '[')[0] == '[';
  }

  // ------------------------------------------------------------------ one located account

  ghost predicate SomeLists(accts: seq<Json>, id: nat, value: string)
    requires id < NUM_TYPES
  {
    exists i :: 0 <= i < |accts| && ListsBoth(accts[i], "type", TypeName(id), KeyName(id), value)
  }

  lemma LocatedOk(data: string, len: nat, la: nat, accts: seq<Json>, id: nat, value: string)
    requires id < NUM_TYPES && ArrayIn(data, len, la, Stringify(Enc(Arr(accts))))
    requires forall j :: 0 <= j < |accts| ==> TameAccount(accts[j])
    requires la >= 1 && InLimits(value) && AllPlain(value)
    ensures var r := AccountAt(data[..len], la, StringEnd(data[..len], la), TypeName(id), KeyName(id), value);
            && (r.Some? <==> SomeLists(accts, id, value))
            && (r.Some? ==> AccountOk(data, len, la, r.value, id) && ValueOf(data, r.value, id) == value
                            && r.value.valueLen == |value|)
  {
    hide At, Js, Enc, TypeName, KeyName, Braces, TameAccount, Pattern, Chosen, Lists, Name, AllPlain, Boundary, InPlace,
      Stringify;
    TableTypes(id);
    TableKeys(id);
    TypeKeyIsName();
    EndOfArray(data, len, la, Stringify(Enc(Arr(accts))));
    JsIsEsc(Enc(Arr(accts)));
    var payload, laEnd := data[..len], StringEnd(data[..len], la);
    NamesArePlain(id);
    if accts == [] {
      ArrayOpens(data, len, la, accts);
      NoNext(payload, la, laEnd);
      NothingChosen(payload, la, laEnd, Pattern("type", TypeName(id)), Pattern(KeyName(id), value));
    } else {
      TailInPayload(data, len, la, accts);
      var i := ChosenAccount(payload, la, laEnd, accts, '[', "type", TypeName(id), KeyName(id), value);
      var span := Chosen(payload, la, laEnd, Pattern("type", TypeName(id)), Pattern(KeyName(id), value));
      if span.Some? {
        HitExists(payload, la, span.value, accts[i], "type", TypeName(id));
        HitExists(payload, la, span.value, accts[i], KeyName(id), value);
        var a := AccountAt(payload, la, laEnd, TypeName(id), KeyName(id), value).value;
        TypeHitOk(data, len, a, id);
        ValueHitOk(data, len, a, id, value);
        SpanOk(data, len, la, Stringify(Enc(Arr(accts))), span.value, accts[i], a);
      }
    }
  }

  lemma NamesArePlain(id: nat)
    requires id < NUM_TYPES && Name(TypeName(id)) && Name(KeyName(id))
    ensures AllPlain(TypeName(id)) && AllPlain(KeyName(id))
  {
  }

  lemma NothingChosen(payload: string, la: nat, laEnd: nat, p: string, q: string)
    requires p != [] && q != [] && NextObject(payload, la, laEnd).None?
    ensures Chosen(payload, la, laEnd, p, q).None?
  {
  }

  lemma SpanOk(data: string, len: nat, la: nat, w: seq<Unit>, span: Span, acct: Json, a: AccountRef)
    requires ArrayIn(data, len, la, w) && la >= 1
    requires InPlace(data[..len], la, span, acct) && span.end + 1 < la + |Esc(w)| + 1
    requires a.start == span.start && a.end == span.end
    requires data[..len][span.start] == '{' && data[..len][span.end] == '}'
             && BraceFree(data[..len], span.start + 1, span.end)
    ensures Bounded(data, len, la, a) && RangeOk(data, len, la, a.start, a.end)
  {
    hide At, Esc, Enc, Braces;
    assert data[..len][la..a.start] == data[la..a.start];
    assert forall k :: 0 <= k < len ==> data[..len][k] == data[k];
  }

  // ------------------------------------------------------------------ issue time

  lemma IatFound(data: string, len: nat, ms: seq<Member>, digits: string)
    requires len <= |data| && data[..len] == Enc(Obj(ms)) && Wf(Obj(ms)) && DistinctKeys(ms)
    requires forall i :: 0 <= i < |ms| ==> Scalar(ms[i].value)
    requires Digits(digits) && |digits| == TS_DIGITS && Member(Stringify(IAT), Raw(digits)) in ms
    ensures var r := FirstTop(data[..len], IAT_KEY, 0); r.Some? && IatOk(data, len, r.value)
  {
    hide At, Enc, FirstTop, Wf, Content, Stringify, Raws;
    assert |IAT| == 3 && |IAT_KEY| == 6;
    var payload, w := data[..len], [QUOTE] + IAT + [QUOTE, ':'];
    assert IAT_KEY == w && w + [] == w;
    var i :| 0 <= i < |ms| && ms[i] == Member(Stringify(IAT), Raw(digits));
    StringifyPlain(IAT);
    var p := KeyFound(payload, ms, i, IAT, []);
    Padded(data, len, p, w);
    var j := TopKey(data, len, ms, p, IAT);
    assert ms[j] == ms[i];
    RawIsItself(digits);
    assert data[p + 6..p + 16] == digits;
  }

  lemma RawIsItself(text: string)
    ensures Enc(Raw(text)) == text
  {
  }

  // ------------------------------------------------------------------ the theorem

  lemma AccountsFound(data: string, len: nat, ms: seq<Member>, accts: seq<Json>)
    requires len <= |data| && Tame(data[..len], ms, accts)
    ensures ArraySpan(data[..len]).Some?
    ensures var (idx, la, laEnd) := ArraySpan(data[..len]).value;
            && la == idx + |LINKED_ACCOUNTS_KEY| >= 1 && laEnd == StringEnd(data[..len], la)
            && LinkedAccountsOk(data, len, idx) && ArrayIn(data, len, la, Stringify(Enc(Arr(accts))))
  {
    hide *;
    TameArray(data[..len], ms, accts);
    var w := Stringify(Enc(Arr(accts)));
    var i :| 0 <= i < |ms| && ms[i].key == Stringify(LINKED_ACCOUNTS);
    AccountsKey();
    var p := StringFound(data, len, ms, w, i, LINKED_ACCOUNTS);
    ArrayStarts(data, len, p + |LINKED_ACCOUNTS_KEY|, accts);
    AccountsSpan(data, len, p);
  }

  lemma AccountsSpan(data: string, len: nat, p: nat)
    requires len <= |data| && FirstTop(data[..len], LINKED_ACCOUNTS_KEY, 0) == Some(p)
    requires p < len && TopLevelAt(data[..len], p) && IsMemberStart(data, p) && BytesAt(data, p, LINKED_ACCOUNTS_KEY)
    requires p + |LINKED_ACCOUNTS_KEY| < |data| && data[p + |LINKED_ACCOUNTS_KEY|] == '['
    ensures LinkedAccountsOk(data, len, p)
    ensures var la := p + |LINKED_ACCOUNTS_KEY|; ArraySpan(data[..len]) == Some((p, la, StringEnd(data[..len], la)))
  {
    hide At, FirstTop, StringEnd, BytesAt;
  }

  lemma ArrayStarts(data: string, len: nat, la: nat, accts: seq<Json>)
    requires ArrayIn(data, len, la, Stringify(Enc(Arr(accts))))
    ensures data[la] == '[' && la + 1 < len
  {
    hide Enc, Stringify, At, Esc;
    ArrayOpens(data, len, la, accts);
  }

  lemma AccountsKey()
    ensures LINKED_ACCOUNTS_KEY == [QUOTE] + LINKED_ACCOUNTS + [QUOTE, ':'] + [QUOTE]
    ensures |LINKED_ACCOUNTS_KEY| == |LINKED_ACCOUNTS| + 4 && AllPlain(LINKED_ACCOUNTS)
    ensures Stringify(LINKED_ACCOUNTS) == Raws(LINKED_ACCOUNTS) && Content(Raws(LINKED_ACCOUNTS)) == LINKED_ACCOUNTS
  {
    hide Stringify, Content, Raws;
    StringifyPlain(LINKED_ACCOUNTS);
  }

  lemma TameArray(payload: string, ms: seq<Member>, accts: seq<Json>)
    requires Tame(payload, ms, accts)
    ensures payload == Enc(Obj(ms)) && Wf(Obj(ms)) && forall i :: 0 <= i < |ms| ==> Scalar(ms[i].value)
    ensures exists i :: 0 <= i < |ms| && ms[i].key == Stringify(LINKED_ACCOUNTS)
    ensures forall i ::
             0 <= i < |ms| && Content(ms[i].key) == LINKED_ACCOUNTS ==> ms[i].value == Str(Stringify(Enc(Arr(accts))))
  {
    hide Stringify, Content, Enc;
  }

  /** A top-level string under a key is found by the search for that key and an opening quote. */
  lemma StringFound(data: string, len: nat, ms: seq<Member>, w: seq<Unit>, i: nat, key: string) returns (p: nat)
    requires len <= |data| && data[..len] == Enc(Obj(ms)) && Wf(Obj(ms))
    requires forall k :: 0 <= k < |ms| ==> Scalar(ms[k].value)
    requires forall k :: 0 <= k < |ms| && Content(ms[k].key) == key ==> ms[k].value == Str(w)
    requires AllPlain(key) && i < |ms| && ms[i].key == Raws(key) && Content(ms[i].key) == key
    ensures var head := [QUOTE] + key + [QUOTE, ':'];
            && FirstTop(data[..len], head + [QUOTE], 0) == Some(p)
            && p < len && TopLevelAt(data[..len], p) && IsMemberStart(data, p) && BytesAt(data, p, head + [QUOTE])
    ensures ArrayIn(data, len, p + |key| + 4, w)
  {
    hide At, Enc, Esc, FirstTop, Wf, Content, Raws, ArrayIn;
    var head := [QUOTE] + key + [QUOTE, ':'];
    StringText(ms[i].value);
    p := KeyFound(data[..len], ms, i, key, [QUOTE]);
    Padded(data, len, p, head + [QUOTE]);
    Shorten(data, p, head, [QUOTE]);
    ArrayIsIn(data, len, ms, w, p, key);
  }

  lemma ScanEnds(data: string, len: nat, ms: seq<Member>)
    requires len <= |data| && data[..len] == Enc(Obj(ms)) && Wf(Obj(ms))
    ensures 0 < len && data[0] == '{' && !At(data[..len], len).inside && At(data[..len], len).depth == 0
  {
    hide Run, Members;
    EncRun(Obj(ms), 0);
    MembersLead(ms, '{');
    assert data[0] == data[..len][0];
  }

  /** In a tame token a listed member is the account's only one with its key. */
  lemma SomeListsMeansListed(accts: seq<Json>, id: nat, value: string)
    requires id < NUM_TYPES && forall j :: 0 <= j < |accts| ==> TameAccount(accts[j])
    ensures SomeLists(accts, id, value) <==> Listed(accts, id, value)
  {
    hide TypeName, KeyName;
    forall j | 0 <= j < |accts|
      ensures ListsBoth(accts[j], "type", TypeName(id), KeyName(id), value)
              <==> Has(accts[j], "type", Words(TypeName(id))) && Has(accts[j], KeyName(id), Words(value))
    {
      ListsMeansHas(accts[j], "type", TypeName(id));
      ListsMeansHas(accts[j], KeyName(id), value);
    }
  }

  lemma ListsMeansHas(acct: Json, key: string, value: string)
    requires TameAccount(acct)
    ensures Lists(acct, key, value) <==> Has(acct, key, Words(value))
  {
    hide Content, Stringify;
    var ms := acct.members;
    if Lists(acct, key, value) {
      var i :| 0 <= i < |ms| && ms[i] == Member(Stringify(key), Str(Stringify(value)));
      StringifySays(key);
      StringifySays(value);
      DistinctHas(ms, i);
      assert Says(ms[i].value, Words(value));
    }
    if Has(acct, key, Words(value)) {
      var m :| m in ms && Content(m.key) == key && Says(m.value, Words(value));
      var i :| 0 <= i < |ms| && ms[i] == m;
      assert PlainKey(ms[i].key);
    }
  }

  /**
   Witness completeness: on a tame token the builder succeeds exactly when some account lists the type
   and value, some account lists the requested wallet, and that wallet is not a malformed address; and
   then the circuit accepts the offsets and reads exactly the requested values.
   */
  lemma WitnessComplete(data: string, len: nat, ms: seq<Member>, accts: seq<Json>, id: nat, value: string,
                        wallet: Option<string>)
    requires len <= |data| && Tame(data[..len], ms, accts)
    requires id < NUM_TYPES && InLimits(value) && AllPlain(value)
    requires UsesWallet(wallet) ==> InLimits(wallet.value) && AllPlain(wallet.value)
    ensures Build(data[..len], id, value, wallet).Some?
            <==> Listed(accts, id, value) && (UsesWallet(wallet) ==> Listed(accts, WALLET, wallet.value))
                 && WalletField(wallet).Some?
    ensures Build(data[..len], id, value, wallet).Some? ==>
              var b := Build(data[..len], id, value, wallet).value;
              && Accepts(data, len, b.off, id, b.wallet)
              && b.iat == Some(IatOf(data, len, b.off.iatIdx))
              && ValueOf(data, b.off.account, id) == value
              && (UsesWallet(wallet) <==> b.off.wallet.valueLen != 0)
              && (UsesWallet(wallet) ==> ValueOf(data, b.off.wallet, WALLET) == wallet.value)
  {
    hide *;
    WalletIsType(wallet);
    TameParts(data[..len], ms, accts);
    AccountsFound(data, len, ms, accts);
    var (idx, la, laEnd) := ArraySpan(data[..len]).value;
    LocatedOk(data, len, la, accts, id, value);
    SomeListsMeansListed(accts, id, value);
    if UsesWallet(wallet) {
      SomeListsMeansListed(accts, WALLET, wallet.value);
      LocatedOk(data, len, la, accts, WALLET, wallet.value);
      FieldIsAddress(wallet.value);
    }
    NoWalletField(wallet);
    var digits :| Digits(digits) && |digits| == TS_DIGITS && Member(Stringify(IAT), Raw(digits)) in ms;
    IatFound(data, len, ms, digits);
    ScanEnds(data, len, ms);
    BuildParts(data[..len], id, value, wallet);
    if Build(data[..len], id, value, wallet).Some? {
      var b := Build(data[..len], id, value, wallet).value;
      OkHasValue(data, len, la, b.off.account, id);
      if UsesWallet(wallet) {
        OkHasValue(data, len, la, b.off.wallet, WALLET);
      }
      AcceptsParts(data, len, b.off, id, b.wallet);
      SameIat(data, len, b.off.iatIdx);
    }
  }

  /** The builder reads the issue time the circuit reads. */
  lemma SameIat(data: string, len: nat, idx: nat)
    requires len <= |data| && IatOk(data, len, idx)
    ensures idx + |IAT_KEY| <= len && IatRead(data[..len], idx) == Some(IatOf(data, len, idx))
  {
    hide At;
    var from := idx + |IAT_KEY|;
    assert data[..len][from..from + TS_DIGITS] == data[from..from + TS_DIGITS];
  }

  /** What the builder returns once the array and the issue time are found. */
  lemma BuildParts(payload: string, id: nat, value: string, wallet: Option<string>)
    requires id < NUM_TYPES && InLimits(value) && (UsesWallet(wallet) ==> InLimits(wallet.value))
    requires ArraySpan(payload).Some? && FirstTop(payload, IAT_KEY, 0).Some?
    ensures var (idx, la, laEnd) := ArraySpan(payload).value;
            var account := AccountAt(payload, la, laEnd, TypeName(id), KeyName(id), value);
            var slot := if UsesWallet(wallet)
                        then AccountAt(payload, la, laEnd, TypeName(WALLET), KeyName(WALLET), wallet.value)
                        else Some(NO_ACCOUNT);
            Build(payload, id, value, wallet)
            == if account.Some? && slot.Some? && WalletField(wallet).Some?
               then Some(Built(Offsets(FirstTop(payload, IAT_KEY, 0).value, idx, account.value, slot.value),
                               WalletField(wallet).value, IatRead(payload, FirstTop(payload, IAT_KEY, 0).value)))
               else None
  {
    hide AccountAt, FirstTop, WalletField, TypeName, KeyName, ArraySpan;
  }

  lemma AcceptsParts(data: string, len: nat, off: Offsets, id: nat, wallet: nat)
    requires 0 < len <= |data| && data[0] == '{' && !At(data[..len], len).inside && At(data[..len], len).depth == 0
    requires IatOk(data, len, off.iatIdx) && LinkedAccountsOk(data, len, off.laIdx)
    requires AccountOk(data, len, off.laIdx + |LINKED_ACCOUNTS_KEY|, off.account, id)
    requires off.wallet.valueLen == 0 ==> wallet == 0
    requires off.wallet.valueLen != 0 ==>
               && AccountOk(data, len, off.laIdx + |LINKED_ACCOUNTS_KEY|, off.wallet, WALLET)
               && ValueOk(data, off.wallet, WALLET) && AddressOf(ValueOf(data, off.wallet, WALLET)) == Some(wallet)
    ensures Accepts(data, len, off, id, wallet)
  {
    hide At, IatOk, LinkedAccountsOk, AccountOk, ValueOk, AddressOf;
  }

  lemma WalletIsType(wallet: Option<string>)
    ensures WALLET < NUM_TYPES && NO_ACCOUNT.valueLen == 0
    ensures UsesWallet(wallet) ==> wallet.Some?
    ensures wallet.Some? && InLimits(wallet.value) ==> |wallet.value| >= 1
  {
  }

  lemma NoWalletField(wallet: Option<string>)
    ensures !UsesWallet(wallet) ==> WalletField(wallet) == Some(0)
  {
  }

  lemma OkHasValue(data: string, len: nat, la: nat, a: AccountRef, id: nat)
    requires AccountOk(data, len, la, a, id)
    ensures id < NUM_TYPES && ValueOk(data, a, id)
  {
  }

  lemma TameParts(payload: string, ms: seq<Member>, accts: seq<Json>)
    requires Tame(payload, ms, accts)
    ensures payload == Enc(Obj(ms)) && Wf(Obj(ms)) && DistinctKeys(ms)
    ensures forall i :: 0 <= i < |ms| ==> Scalar(ms[i].value)
    ensures forall i :: 0 <= i < |accts| ==> TameAccount(accts[i])
    ensures exists digits :: Digits(digits) && |digits| == TS_DIGITS && Member(Stringify(IAT), Raw(digits)) in ms
  {
  }

  // ------------------------------------------------------------------ an example

  function Text(key: string, value: string): Member {
    Member(Stringify(key), Str(Stringify(value)))
  }

  function SampleAccount(): Json {
    Obj([Text("type", "email"), Text("address", "a@b.c")])
  }

  function SampleClaims(): seq<Member> {
    [Text(LINKED_ACCOUNTS, Enc(Arr([SampleAccount()]))), Member(Stringify(IAT), Raw("1788916490"))]
  }

  /** The theorems are not empty: a token with one email account is tame, and its email can be proven. */
  lemma SampleIsProvable(data: string, len: nat)
    requires len <= |data| && data[..len] == Enc(Obj(SampleClaims()))
    ensures Tame(data[..len], SampleClaims(), [SampleAccount()])
    ensures var b := Build(data[..len], 0, "a@b.c", None); b.Some? && Accepts(data, len, b.value.off, 0, 0)
  {
    hide Enc, Build, Accepts, WalletField, Stringify, Content, SampleClaims, Listed, TameAccount, Tame;
    SampleIsTame();
    var acct, value := SampleAccount(), "a@b.c";
    assert AllPlain(value) && InLimits(value);
    SampleLists();
    TameParts(data[..len], SampleClaims(), [acct]);
    SomeListsMeansListed([acct], 0, value);
    NoWalletField(None);
    WitnessComplete(data, len, SampleClaims(), [acct], 0, value, None);
    NoWallet(data[..len], value);
  }

  lemma SampleLists()
    ensures SomeLists([SampleAccount()], 0, "a@b.c")
  {
    hide Stringify;
    var acct := SampleAccount();
    assert acct.members[0] == Text("type", TypeName(0)) && acct.members[1] == Text(KeyName(0), "a@b.c");
    assert ListsBoth([acct][0], "type", TypeName(0), KeyName(0), "a@b.c");
  }

  lemma NoWallet(payload: string, value: string)
    ensures Build(payload, 0, value, None).Some? ==> Build(payload, 0, value, None).value.wallet == 0
  {
  }

  lemma SampleIsTame()
    ensures Tame(Enc(Obj(SampleClaims())), SampleClaims(), [SampleAccount()])
  {
    hide Enc, TameAccount, FlatAccount, Stringify, Content;
    var ms, acct := SampleClaims(), SampleAccount();
    var digits, t := "1788916490", Enc(Arr([acct]));
    StringifySays(LINKED_ACCOUNTS);
    StringifySays(IAT);
    StringifySays(t);
    assert LINKED_ACCOUNTS[0] != IAT[0];
    assert Digits(digits) && RawText(digits) && |digits| == TS_DIGITS;
    assert |ms| == 2 && ms[0] == Text(LINKED_ACCOUNTS, t) && ms[1] == Member(Stringify(IAT), Raw(digits));
    SampleIsFlat();
    TameIsFlat(acct);
    assert Wf(Obj(ms)) && DistinctKeys(ms);
    assert Token(Enc(Obj(ms)), ms, [acct], Stringify(t));
    assert Member(Stringify(IAT), Raw(digits)) in ms;
  }

  lemma TameIsFlat(acct: Json)
    requires TameAccount(acct)
    ensures FlatAccount(acct)
  {
  }

  lemma SampleIsFlat()
    ensures TameAccount(SampleAccount())
  {
    hide AllPlain, NoBraces, Stringify, Content;
    SampleWords();
    StringifySays("type");
    StringifySays("email");
    StringifySays("address");
    StringifySays("a@b.c");
    var ms := SampleAccount().members;
    assert "type"[0] != "address"[0];
    assert |ms| == 2 && ms[0] == Text("type", "email") && ms[1] == Text("address", "a@b.c");
  }

  lemma SampleWords()
    ensures AllPlain("type") && NoBraces("type") && NoBraces("email")
    ensures AllPlain("address") && NoBraces("address") && NoBraces("a@b.c")
  {
  }
}
