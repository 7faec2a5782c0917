/**
 Whatever the witness builder finds in a well-behaved token, the circuit accepts; and it finds every
 listed identity and wallet.
 */
module Completeness {
  import opened Types
  import opened Encoding
  import opened Json
  import opened Scan
  import opened Documents
  import opened Locate
  import opened Circuit
  import opened Soundness
  import opened Witness

  predicate NoBraces(s: string) {
    forall i :: 0 <= i < |s| ==> s[i] != '{' && s[i] != '}'
  }

  /** Written as JSON.stringify writes it. */
  predicate Canonical(t: seq<Unit>) {
    t == Stringify(Content(t))
  }

  predicate PlainKey(t: seq<Unit>) {
    Canonical(t) && AllPlain(Content(t)) && NoBraces(Content(t))
  }

  predicate BraceFreeText(t: seq<Unit>) {
    Canonical(t) && NoBraces(Content(t))
  }

  /** Plain keys and brace-free strings, written canonically. */
  ghost predicate TameAccount(acct: Json) {
    FlatAccount(acct) && TameMembers(acct.members)
  }

  ghost predicate TameMembers(ms: seq<Member>) {
    forall i :: 0 <= i < |ms| ==>
      && PlainKey(ms[i].key) && Scalar(ms[i].value) && Wf(ms[i].value)
      && (ms[i].value.Str? ==> BraceFreeText(ms[i].value.written))
  }

  predicate Scalar(j: Json) {
    j.Str? || j.Raw?
  }

  /**
   Top-level values are scalars or strings, iat has ten digits, linked_accounts is there and holds the
   array as JSON.stringify writes it, and the accounts are tame.
   */
  ghost predicate Tame(payload: string, ms: seq<Member>, accts: seq<Json>) {
    && Token(payload, ms, accts, Stringify(Enc(Arr(accts))))
    && (forall i :: 0 <= i < |ms| ==> Scalar(ms[i].value))
    && (exists i :: 0 <= i < |ms| && ms[i].key == Stringify(LINKED_ACCOUNTS))
    && (exists digits :: Digits(digits) && |digits| == TS_DIGITS && Member(Stringify(IAT), Raw(digits)) in ms)
    && (forall i :: 0 <= i < |accts| ==> TameAccount(accts[i]))
  }

  // ------------------------------------------------------------------ the top level

  /** Reading on from `m`, the depth is `d` after every byte. */
  ghost predicate Level(m: Mark, s: string, d: int) {
    forall x :: 1 <= x <= |s| ==> Run(m, s[..x]).depth == d
  }

  lemma LevelConcat(m: Mark, s: string, t: string, d: int)
    requires Level(m, s, d) && Level(Run(m, s), t, d)
    ensures Level(m, s + t, d)
  {
    hide Run;
    forall x | 1 <= x <= |s + t|
      ensures Run(m, (s + t)[..x]).depth == d
    {
      PrefixOfSum(s, t, x);
      if x > |s| {
        RunConcat(m, s, t[..x - |s|]);
      }
    }
  }

  lemma LevelOne(m: Mark, c: char)
    ensures Level(m, [c], Step(m, c).depth) && Run(m, [c]) == Step(m, c)
  {
    RunOne(m, c);
    assert [c][..1] == [c];
  }

  lemma ScalarLevel(j: Json, e: int)
    requires Scalar(j) && Wf(j)
    ensures Level(Out(e), Enc(j), e)
  {
    hide Run, Esc;
    match j
    case Str(s) => StringMarks(s, e);
    case Raw(s) => RawMarks(s, e);
  }

  lemma MemberLevel(m: Member, lead: char, e: int)
    requires Boundary(lead) && Scalar(m.value) && Wf(m.value)
    ensures Level(Base(lead, e), MemberText(m, lead), e + 1)
  {
    hide Run, Esc, Enc;
    var name := [QUOTE] + Esc(m.key) + [QUOTE];
    LevelOne(Base(lead, e), lead);
    StringMarks(m.key, e + 1);
    LevelConcat(Base(lead, e), [lead], name, e + 1);
    RunCons(Base(lead, e), lead, name);
    assert name[..|name|] == name;
    LevelOne(Out(e + 1), ':');
    LevelConcat(Base(lead, e), [lead] + name, [':'], e + 1);
    RunConcat(Base(lead, e), [lead] + name, [':']);
    ScalarLevel(m.value, e + 1);
    LevelConcat(Base(lead, e), [lead] + name + [':'], Enc(m.value), e + 1);
    assert MemberText(m, lead) == [lead] + name + [':'] + Enc(m.value);
  }

  lemma {:induction false} MembersLevel(ms: seq<Member>, lead: char, e: int)
    requires Boundary(lead) && forall i :: 0 <= i < |ms| ==> Scalar(ms[i].value) && Wf(ms[i].value)
    ensures Level(Base(lead, e), Members(ms, lead), e + 1)
  {
    hide Run, MemberText;
    if ms != [] {
      MemberLevel(ms[0], lead, e);
      MemberRun(ms[0], lead, e);
      MembersLevel(ms[1..], ',', e);
      LevelConcat(Base(lead, e), MemberText(ms[0], lead), Members(ms[1..], ','), e + 1);
    }
  }

  /** With only scalars and strings, everything but the outer braces is at depth one. */
  lemma FlatDepth(ms: seq<Member>, p: nat)
    requires Wf(Obj(ms)) && (forall i :: 0 <= i < |ms| ==> Scalar(ms[i].value)) && 1 <= p < |Enc(Obj(ms))| && ms != []
    ensures At(Enc(Obj(ms)), p).depth == 1
  {
    hide Run, Members;
    MembersLevel(ms, '{', 0);
    var t := Members(ms, '{');
    assert Enc(Obj(ms)) == t + "}";
    assert Enc(Obj(ms))[..p] == t[..p];
  }

  /** The scan reaches a member's opening quote outside every string. */
  lemma {:induction false} MemberOutside(ms: seq<Member>, lead: char, e: int, i: nat)
    requires Boundary(lead) && i < |ms| && forall k :: 0 <= k < |ms| ==> Wf(ms[k].value)
    ensures MemberStart(ms, i) < |Members(ms, lead)|
    ensures Run(Base(lead, e), Members(ms, lead)[..MemberStart(ms, i) + 1]) == Out(e + 1)
    ensures Boundary(Members(ms, lead)[MemberStart(ms, i)])
  {
    hide Run, KeyValue;
    var a, rest := MemberText(ms[0], lead), Members(ms[1..], ',');
    if i == 0 {
      assert Members(ms, lead)[..1] == [lead];
      RunOne(Base(lead, e), lead);
    } else {
      MemberOutside(ms[1..], ',', e, i - 1);
      MemberRun(ms[0], lead, e);
      var x := MemberStart(ms[1..], i - 1) + 1;
      assert (a + rest)[..|a| + x] == a + rest[..x];
      RunConcat(Base(lead, e), a, rest[..x]);
      assert (a + rest)[|a| + x - 1] == rest[x - 1];
    }
  }

  /** So every member whose text begins with a pattern is found by the search for it. */
  lemma MemberIsHit(ms: seq<Member>, i: nat, key: string)
    requires Wf(Obj(ms)) && i < |ms| && key != [] && key <= KeyValue(ms[i])
    ensures TopHit(Enc(Obj(ms)), key, MemberStart(ms, i) + 1)
  {
    hide Run, KeyValue, Members, MemberStart;
    var t := Members(ms, '{');
    assert Enc(Obj(ms)) == t + "}";
    MemberOutside(ms, '{', 0, i);
    MemberFromKey(ms, '{', i);
    var p := MemberStart(ms, i) + 1;
    assert t[p..][..|key|] == key;
    assert (t + "}")[p..p + |key|] == t[p..][..|key|];
    assert (t + "}")[..p] == t[..p];
  }

  /** A hit is at top level. */
  lemma HitIsTop(ms: seq<Member>, key: string, p: nat)
    requires Wf(Obj(ms)) && (forall i :: 0 <= i < |ms| ==> Scalar(ms[i].value)) && ms != []
    requires TopHit(Enc(Obj(ms)), key, p)
    ensures TopLevelAt(Enc(Obj(ms)), p) && p >= 1
  {
    hide At, Enc;
    FlatDepth(ms, p);
  }

  /** The search for a key finds a member with that key. */
  lemma KeyFound(payload: string, ms: seq<Member>, i: nat, key: string, more: string) returns (p: nat)
    requires payload == Enc(Obj(ms)) && Wf(Obj(ms)) && (forall k :: 0 <= k < |ms| ==> Scalar(ms[k].value))
    requires AllPlain(key) && i < |ms| && ms[i].key == Raws(key)
    requires more <= Enc(ms[i].value)
    ensures FirstTop(payload, [QUOTE] + key + [QUOTE, ':'] + more, 0) == Some(p)
    ensures TopHit(payload, [QUOTE] + key + [QUOTE, ':'] + more, p) && TopLevelAt(payload, p)
  {
    hide At, Enc, Esc, MemberStart, TopHit;
    EscOfPlain(key);
    var w := [QUOTE] + key + [QUOTE, ':'] + more;
    var v := Enc(ms[i].value);
    assert KeyValue(ms[i]) == ([QUOTE] + key + [QUOTE, ':']) + v;
    assert KeyValue(ms[i])[..|w|] == ([QUOTE] + key + [QUOTE, ':']) + v[..|more|] == w;
    MemberIsHit(ms, i, w);
    p := FirstTop(payload, w, 0).value;
    HitIsTop(ms, w, p);
  }

  // ------------------------------------------------------------------ an account's text

  lemma EscNoBraces(t: seq<Unit>)
    requires NoBraces(Content(t))
    ensures NoBraces(Esc(t))
  {
    hide Esc, Content;
    forall x | 0 <= x < |Esc(t)|
      ensures Esc(t)[x] != '{' && Esc(t)[x] != '}'
    {
      if Structural(Esc(t)[x]) {
        StructuralAt(t, x);
      }
    }
  }

  lemma KeyValueNoBraces(m: Member)
    requires NoBraces(Content(m.key)) && Scalar(m.value) && Wf(m.value)
    requires m.value.Str? ==> NoBraces(Content(m.value.written))
    ensures NoBraces(KeyValue(m))
  {
    hide Esc, Content;
    EscNoBraces(m.key);
    if m.value.Str? {
      EscNoBraces(m.value.written);
    }
  }

  lemma {:induction false} MembersNoBraces(ms: seq<Member>)
    requires TameMembers(ms)
    ensures NoBraces(Members(ms, ','))
  {
    hide KeyValue;
    if ms != [] {
      KeyValueNoBraces(ms[0]);
      MembersNoBraces(ms[1..]);
    }
  }

  /** A brace, bytes without braces, a brace. */
  lemma AccountInner(acct: Json) returns (inner: string)
    requires TameAccount(acct)
    ensures Enc(acct) == "{" + inner + "}" && NoBraces(inner)
  {
    hide Esc, KeyValue, Content, Stringify;
    var ms := acct.members;
    if ms == [] {
      inner := [];
    } else {
      inner := KeyValue(ms[0]) + Members(ms[1..], ',');
      KeyValueNoBraces(ms[0]);
      MembersNoBraces(ms[1..]);
      assert Members(ms, '{') == "{" + inner;
    }
  }

  lemma AccountShape(acct: Json) returns (inner: string)
    requires TameAccount(acct)
    ensures Enc(acct) == "{" + inner + "}" && NoBraces(inner)
    ensures Js(Enc(acct)) == "{" + Js(inner) + "}" && NoBraces(Js(inner))
  {
    hide Esc, Enc, TameAccount, Stringify;
    inner := AccountInner(acct);
    StringifySays(inner);
    EscNoBraces(Stringify(inner));
    JsConcat("{", inner);
    JsConcat("{" + inner, "}");
    JsOfPlain("{");
    JsOfPlain("}");
  }

  lemma {:induction false} BracesConcat(s: string, t: string)
    ensures Braces(s + t) == Braces(s) + Braces(t)
  {
    if t == [] {
      assert s + t == s;
    } else {
      assert (s + t)[..|s + t| - 1] == s + t[..|t| - 1];
      BracesConcat(s, t[..|t| - 1]);
    }
  }

  lemma {:induction false} BracesNone(s: string)
    requires NoBraces(s)
    ensures Braces(s) == 0
  {
    if s != [] {
      BracesNone(s[..|s| - 1]);
    }
  }

  lemma AccountBalanced(lead: char, inner: string)
    requires lead != '{' && lead != '}' && NoBraces(inner)
    ensures Braces([lead] + ("{" + inner + "}")) == 0
  {
    BracesNone(inner);
    BracesConcat("{", inner);
    BracesConcat("{" + inner, "}");
    BracesConcat([lead], "{" + inner + "}");
    assert Braces("{") == 1 && Braces("}") == -1 && Braces([lead]) == 0;
  }

  // ------------------------------------------------------------------ patterns in an account

  /** In a member with a plain key only the key's opening quote is followed by a name, a quote and a colon. */
  lemma NameInMember(m: Member, lead: char, next: string, q: nat, k: string)
    requires PlainKey(m.key) && Scalar(m.value) && Wf(m.value) && Name(k)
    requires next != [] && (next[0] == ',' || next[0] == '}') && Boundary(lead)
    requires var t := MemberText(m, lead) + next;
             1 <= q < |MemberText(m, lead)| && t[q] == QUOTE && k + [QUOTE, ':'] <= t[q + 1..]
    ensures q == 1
  {
    hide Esc, Content, Stringify, Raws;
    var key := Content(m.key);
    StringifyPlain(key);
    EscOfPlain(key);
    var t, n := MemberText(m, lead) + next, |m.key|;
    assert Esc(m.key) == key;
    var s := t[q + 1..];
    assert s[0] == k[0] && s[|k|] == QUOTE && s[|k| + 1] == ':';
    if q >= n + 4 {
      var x := q - n - 4;
      assert t[q] == Enc(m.value)[x];
      assert m.value.Str?;
      assert s == (Enc(m.value) + next)[x + 1..];
      NameInString(m.value.written, next, x, k);
    }
  }

  /** Nowhere in a string value, its quotes included, is a quote followed by a name, a quote and a colon. */
  lemma NameInString(c: seq<Unit>, next: string, x: nat, k: string)
    requires Name(k) && next != [] && (next[0] == ',' || next[0] == '}')
    requires x <= |Esc(c)| + 1 && ([QUOTE] + Esc(c) + [QUOTE] + next)[x] == QUOTE
    ensures !(k + [QUOTE, ':'] <= ([QUOTE] + Esc(c) + [QUOTE] + next)[x + 1..])
  {
    hide Esc;
    var e := Esc(c);
    var t := [QUOTE] + e + [QUOTE] + next;
    var s, w := t[x + 1..], k + [QUOTE, ':'];
    if x == |e| + 1 {
      Differ(w, s, 0);
    } else if x + |k| < |e| {
      assert s[|k|] == e[x + |k|] && s[|k| - 1] == e[x + |k| - 1];
      if e[x + |k|] == QUOTE {
        QuoteAt(c, x + |k|);
        Differ(w, s, |k| - 1);
      } else {
        Differ(w, s, |k|);
      }
    } else if x + |k| == |e| {
      assert s[|k| + 1] == next[0];
      Differ(w, s, |k| + 1);
    } else {
      assert s[|e| - x] == QUOTE;
      Differ(w, s, |e| - x);
    }
  }

  lemma Differ(w: string, s: string, i: nat)
    requires i < |w| && (i < |s| ==> w[i] != s[i])
    ensures !(w <= s)
  {
  }

  lemma {:induction false} NameInMembers(ms: seq<Member>, lead: char, q: nat, k: string) returns (i: nat)
    requires TameMembers(ms) && Name(k) && Boundary(lead)
    requires var t := Members(ms, lead) + "}"; 1 <= q < |t| && t[q] == QUOTE && k + [QUOTE, ':'] <= t[q + 1..]
    ensures i < |ms| && q == MemberStart(ms, i) + 1
  {
    hide Esc, Enc, KeyValue, Content, Stringify, PlainKey, BraceFreeText;
    var t := Members(ms, lead) + "}";
    assert t[|t| - 1] == '}';
    MembersLead(ms, lead);
    var a, rest := MemberText(ms[0], lead), Members(ms[1..], ',') + "}";
    assert t == a + rest;
    assert |a| == |MemberText(ms[0], ',')|;
    MembersLead(ms[1..], ',');
    assert rest[0] == ',' || rest[0] == '}';
    if q < |a| {
      NameInMember(ms[0], lead, rest, q, k);
      i := 0;
    } else {
      assert t[q] == rest[q - |a|];
      assert t[q + 1..] == rest[q - |a| + 1..];
      i := NameInMembers(ms[1..], ',', q - |a|, k);
      i := i + 1;
    }
  }

  ghost predicate Lists(acct: Json, key: string, value: string) {
    acct.Obj? && Member(Stringify(key), Str(Stringify(value))) in acct.members
  }

  lemma PatternIsJs(key: string, value: string)
    requires AllPlain(key) && AllPlain(value)
    ensures Pattern(key, value) == Js(Quoted(key, value)) && Stringify(Quoted(key, value)) == Requoted(key, value)
  {
    hide Esc;
    EscWrap(key, value);
    assert KEY_VALUE_SEP_ESC == QUOTE_ESC + ":" + QUOTE_ESC;
    assert Pattern(key, value) == QUOTE_ESC + key + KEY_VALUE_SEP_ESC + value + QUOTE_ESC;
    QuotedIsRequoted(key, value);
  }

  lemma QuotedIsRequoted(key: string, value: string)
    requires AllPlain(key) && AllPlain(value)
    ensures Stringify(Quoted(key, value)) == Requoted(key, value)
  {
    hide Stringify, Raws;
    var s, t := Stringify(Quoted(key, value)), Requoted(key, value);
    assert |s| == |t|;
    assert forall i :: 0 <= i < |s| ==> s[i] == Canon(Quoted(key, value)[i]) == t[i];
  }

  /** In the text: a pattern's quote stands at a boundary and opens that very member. */
  lemma QuotedInAccount(acct: Json, q: nat, key: string, value: string)
    requires TameAccount(acct) && Name(key) && AllPlain(value)
    requires q < |Enc(acct)| && Quoted(key, value) <= Enc(acct)[q..]
    ensures q >= 1 && Boundary(Enc(acct)[q - 1]) && Lists(acct, key, value)
  {
    hide Esc, KeyValue, MemberStart, Members, Content, Stringify, PlainKey, BraceFreeText, Raws;
    var ms, t := acct.members, Enc(acct);
    AccountFirst(acct);
    PatternPieces(t[q..], key, value);
    assert t[q] == t[q..][0] == Quoted(key, value)[0];
    assert key + [QUOTE, ':'] == Quoted(key, value)[1..|key| + 3] == t[q + 1..][..|key| + 2];
    assert ms != [] by {
      assert ms == [] ==> t == "{}";
    }
    var i := NameInMembers(ms, '{', q, key);
    MembersAt(ms, '{', i);
    MemberFromKey(ms, '{', i);
    var rest := Members(ms[i + 1..], ',') + "}";
    assert t == Members(ms, '{') + "}";
    assert t[q..] == KeyValue(ms[i]) + rest;
    MemberIs(ms[i], rest, key, value, t[q..]);
    StringifyPlain(key);
    StringifyPlain(value);
    MemberOutside(ms, '{', 0, i);
    assert t[q - 1] == Members(ms, '{')[q - 1];
  }

  lemma AccountFirst(acct: Json)
    requires acct.Obj?
    ensures Enc(acct) != [] && Enc(acct)[0] == '{'
  {
    MembersLead(acct.members, '{');
  }

  /** A pattern in the written text stands for one in the text. */
  lemma PatternStands(t: string, y: nat, key: string, value: string) returns (q: nat)
    requires AllPlain(key) && AllPlain(value) && BytesAt(Js(t), y, Pattern(key, value))
    ensures q < |t| && |Esc(Stringify(t)[..q])| == y && Quoted(key, value) <= t[q..]
  {
    hide Esc, Pattern, Quoted, UnitText, Stringify, Requoted, Content;
    var u, p := Stringify(t), Pattern(key, value);
    var e := Esc(u);
    PatternIsJs(key, value);
    PatternEnds(key, value);
    assert e[y + 1] == e[y..y + |p|][1];
    QuoteAt(u, y + 1);
    q := UnitAt(u, y + 1);
    EscSplit(u, q);
    assert e[y..] == Esc(u[q..]);
    PrefixOfTail(e, y, p);
    EscPrefix(u[q..], Requoted(key, value));
    ContentOfTail(u, q, Requoted(key, value));
    RequotedSays(key, value);
    StringifySays(t);
  }

  /** In the written text likewise. */
  lemma PatternInAccount(acct: Json, y: nat, key: string, value: string)
    requires TameAccount(acct) && Name(key) && AllPlain(value)
    requires BytesAt(Js(Enc(acct)), y, Pattern(key, value))
    ensures y >= 1 && Boundary(Js(Enc(acct))[y - 1]) && Lists(acct, key, value)
    ensures y + |Pattern(key, value)| < |Js(Enc(acct))|
  {
    hide Esc, Enc, TameAccount, Pattern, Quoted, Lists, Stringify;
    var t := Enc(acct);
    var e, p := Js(t), Pattern(key, value);
    var q := PatternStands(t, y, key, value);
    QuotedInAccount(acct, q, key, value);
    BoundaryBefore(t, q);
    var inner := AccountShape(acct);
    PatternEnds(key, value);
    assert e[y + |p| - 1] == e[y..y + |p|][|p| - 1];
  }

  lemma BoundaryBefore(t: string, q: nat)
    requires 1 <= q <= |t| && Boundary(t[q - 1])
    ensures var u := Stringify(t); 1 <= |Esc(u[..q])| <= |Js(t)| && Js(t)[|Esc(u[..q])| - 1] == t[q - 1]
  {
    hide Esc, UnitText, Stringify;
    var u := Stringify(t);
    assert u[q - 1] == Lit(t[q - 1]);
    EscSnoc(u, q - 1);
    UnitShape(u[q - 1]);
    EscKeeps(u, q - 1);
  }

  lemma PatternEnds(key: string, value: string)
    ensures |Pattern(key, value)| >= 2 && Pattern(key, value)[1] == QUOTE
    ensures Pattern(key, value)[0] == BACKSLASH && Pattern(key, value)[|Pattern(key, value)| - 1] == QUOTE
  {
  }

  /** And a listed member's pattern is there. */
  lemma ListedIsThere(acct: Json, key: string, value: string) returns (y: nat)
    requires TameAccount(acct) && AllPlain(key) && AllPlain(value) && Lists(acct, key, value)
    ensures BytesAt(Js(Enc(acct)), y, Pattern(key, value))
  {
    hide Js, KeyValue, MemberStart, Members, Pattern, Stringify, Quoted, TameMembers, FlatAccount;
    var ms, t, w := acct.members, Enc(acct), Quoted(key, value);
    var i :| 0 <= i < |ms| && ms[i] == Member(Stringify(key), Str(Stringify(value)));
    MemberFromKey(ms, '{', i);
    PlainKeyValue(key, value);
    var q := MemberStart(ms, i) + 1;
    assert t == Members(ms, '{') + "}";
    var rest := Members(ms[i + 1..], ',') + "}";
    assert t == t[..q] + (w + rest);
    JsConcat(t[..q], w + rest);
    JsConcat(w, rest);
    PatternIsJs(key, value);
    y := |Js(t[..q])|;
    assert Js(t)[y..] == Js(w) + Js(rest);
    PrefixOfTail(Js(t), y, Js(w));
  }

  lemma PlainKeyValue(key: string, value: string)
    requires AllPlain(key) && AllPlain(value)
    ensures KeyValue(Member(Stringify(key), Str(Stringify(value)))) == Quoted(key, value)
  {
    hide Esc, Stringify;
    JsOfPlain(key);
    JsOfPlain(value);
  }

  /** So an account's text includes a pattern exactly when the account lists the member. */
  lemma IncludesMeansLists(acct: Json, key: string, value: string)
    requires TameAccount(acct) && Name(key) && AllPlain(value)
    ensures Includes(Js(Enc(acct)), Pattern(key, value)) <==> Lists(acct, key, value)
  {
    hide Js, Enc, Pattern, Lists, TameAccount, BytesAt;
    var e, p := Js(Enc(acct)), Pattern(key, value);
    if Includes(e, p) {
      PatternInAccount(acct, IndexOf(e, p, 0).value, key, value);
    }
    if Lists(acct, key, value) {
      var y := ListedIsThere(acct, key, value);
      assert IndexOf(e, p, 0).Some?;
    }
  }
}
