/**
 What accepted offsets prove about the token: one linked account has exactly the stated type and value,
 and the issue time is the token's own. The payload is any compact JSON object with distinct keys whose
 linked_accounts says a stringified array of flat objects; every string, at both levels, may say anything
 and may be written in any way, as long as accounts stay separated by a brace written as itself.
 */
module Soundness {
  import opened Types
  import opened Json
  import opened Scan
  import opened Documents
  import opened Locate
  import opened Circuit

  const LINKED_ACCOUNTS := "linked_accounts"
  const IAT := "iat"

  /** What a scalar says: words, however they are written, or the text of a number. */
  datatype Said = Words(words: string) | Number(text: string)

  predicate Says(j: Json, x: Said) {
    match x
    case Words(words) => j.Str? && Content(j.written) == words
    case Number(text) => j == Raw(text)
  }

  /**
   The token's decoded payload: `ms` are its claims, `accts` its linked accounts, and `w` is how the
   claim that holds their array writes it.
   */
  ghost predicate Token(payload: string, ms: seq<Member>, accts: seq<Json>, w: seq<Unit>) {
    && payload == Enc(Obj(ms)) && Wf(Obj(ms)) && DistinctKeys(ms)
    && (forall i :: 0 <= i < |accts| ==> FlatAccount(accts[i]))
    && Content(w) == Enc(Arr(accts))
    && (forall i :: 0 <= i < |ms| && Content(ms[i].key) == LINKED_ACCOUNTS ==> ms[i].value == Str(w))
  }

  /** The object has a member saying this, and all its members with that key say it. */
  ghost predicate Has(acct: Json, key: string, x: Said) {
    && acct.Obj?
    && (exists m :: m in acct.members && Content(m.key) == key && Says(m.value, x))
    && (forall m :: m in acct.members && Content(m.key) == key ==> Says(m.value, x))
  }

  /** One single listed account has exactly this type and this value under the type's key. */
  ghost predicate Listed(accts: seq<Json>, id: nat, value: string)
    requires id < NUM_TYPES
  {
    exists i :: 0 <= i < |accts| && Has(accts[i], "type", Words(TypeName(id)))
      && Has(accts[i], KeyName(id), Words(value))
  }

  /** Where an account's opening and closing brace stand in the array's text. */
  function Opening(accts: seq<Json>, i: nat): nat
    requires i < |accts|
  {
    ItemStart(accts, i)
  }

  function Closing(accts: seq<Json>, i: nat): int
    requires i < |accts|
  {
    ItemStart(accts, i) + |Enc(accts[i])| - 1
  }

  /** Between any two neighbours the closing brace of one or the opening brace of the next is written as itself. */
  ghost predicate Separated(accts: seq<Json>, w: seq<Unit>)
    requires |w| == |Enc(Arr(accts))|
  {
    forall i, j :: 0 <= i && j == i + 1 && j < |accts| ==> Parted(accts, w, i, j)
  }

  ghost predicate Parted(accts: seq<Json>, w: seq<Unit>, i: nat, j: nat)
    requires i < |accts| && j < |accts|
  {
    || (0 <= Closing(accts, i) < |w| && w[Closing(accts, i)] == Lit('}'))
    || (Opening(accts, j) < |w| && w[Opening(accts, j)] == Lit('{'))
  }

  // ------------------------------------------------------------------ small steps

  lemma SliceOfSlice(s: string, i: nat, j: nat, a: nat, b: nat)
    requires i <= j <= |s| && a <= b <= j - i
    ensures s[i..j][a..b] == s[i + a..i + b]
  {
    var t := s[i..j];
    assert forall k :: 0 <= k < b - a ==> t[a..b][k] == s[i + (a + k)];
  }

  lemma Extend(data: string, i: nat, p: string, q: string)
    requires BytesAt(data, i, p) && BytesAt(data, i + |p|, q)
    ensures BytesAt(data, i, p + q)
  {
    assert data[i..i + |p + q|] == data[i..i + |p|] + data[i + |p|..i + |p| + |q|];
  }

  lemma Shorten(data: string, i: nat, p: string, q: string)
    requires BytesAt(data, i, p + q)
    ensures BytesAt(data, i, p) && BytesAt(data, i + |p|, q)
  {
    var s := data[i..i + |p + q|];
    assert data[i..i + |p|] == s[..|p|] == p;
    assert data[i + |p|..i + |p| + |q|] == s[|p|..] == q;
  }

  lemma PrefixOfTail(s: string, i: nat, p: string)
    requires i <= |s|
    ensures BytesAt(s, i, p) <==> p <= s[i..]
  {
  }

  lemma DistinctHas(ms: seq<Member>, i: nat)
    requires DistinctKeys(ms) && i < |ms|
    ensures forall x :: Says(ms[i].value, x) ==> Has(Obj(ms), Content(ms[i].key), x)
  {
    hide Content;
    assert ms[i] in ms;
    forall m | m in ms && Content(m.key) == Content(ms[i].key)
      ensures m == ms[i]
    {
      var j :| 0 <= j < |ms| && ms[j] == m;
    }
  }

  // ------------------------------------------------------------------ top level

  /** A top-level key written at p, with its value's first byte, is that member of the token. */
  lemma TopKey(data: string, len: nat, ms: seq<Member>, p: nat, key: string) returns (i: nat)
    requires len <= |data| && data[..len] == Enc(Obj(ms)) && Wf(Obj(ms)) && AllPlain(key)
    requires p < len && TopLevelAt(data[..len], p) && IsMemberStart(data, p)
    requires BytesAt(data, p, [QUOTE] + key + [QUOTE, ':'])
    ensures i < |ms| && ms[i].key == Raws(key) && Content(ms[i].key) == key
            && BytesAt(data, p + |key| + 3, Enc(ms[i].value))
    ensures p + |key| + 3 + |Enc(ms[i].value)| < len
    ensures var next := data[p + |key| + 3 + |Enc(ms[i].value)|]; next == ',' || next == '}'
    ensures p == MemberStart(ms, i) + 1
  {
    hide Enc, Esc, At, Members, MemberStart, Content;
    var payload := data[..len];
    assert data[p] == QUOTE;
    i := TopMember(ms, p);
    var m := ms[i];
    var rest := Members(ms[i + 1..], ',') + "}";
    MembersLead(ms[i + 1..], ',');
    assert rest[0] == ',' || rest[0] == '}';
    assert payload[p..] == KeyValue(m) + rest;
    assert data[p..] == KeyValue(m) + rest + data[len..];
    SameKey(m.key, key, data[p + 1..]) by {
      assert data[p..][1..] == data[p + 1..];
      assert Esc(m.key) + [QUOTE] <= data[p + 1..];
      assert key + [QUOTE] <= data[p + 1..] by {
        KeyBytes(data, p, key);
      }
    }
    assert Esc(m.key) == key by {
      EscOfPlain(key);
    }
    ValueBytes(data, p, m, rest + data[len..]);
    assert rest[0] == data[p..][|KeyValue(m)|];
  }

  lemma SameKey(c: seq<Unit>, key: string, s: string)
    requires AllPlain(key) && Esc(c) + [QUOTE] <= s && key + [QUOTE] <= s
    ensures c == Raws(key) && Content(c) == key
  {
    UntilQuote(c, key, s);
  }

  lemma KeyBytes(data: string, p: nat, key: string)
    requires BytesAt(data, p, [QUOTE] + key + [QUOTE, ':'])
    ensures key + [QUOTE] <= data[p + 1..]
  {
    var w := [QUOTE] + key + [QUOTE, ':'];
    assert data[p..p + |w|] == w;
    assert w[1..|key| + 2] == key + [QUOTE];
    SliceOfSlice(data, p, p + |w|, 1, |key| + 2);
    assert data[p + 1..][..|key| + 1] == data[p + 1..p + |key| + 2];
  }

  lemma ValueBytes(data: string, p: nat, m: Member, rest: string)
    requires p <= |data| && data[p..] == KeyValue(m) + rest
    ensures BytesAt(data, p + |Esc(m.key)| + 3, Enc(m.value))
  {
    hide Enc, Esc;
    var k := |Esc(m.key)| + 3;
    assert data[p + k..] == data[p..][k..] == Enc(m.value) + rest;
    PrefixOfTail(data, p + k, Enc(m.value));
  }

  /** The accepted issue time is the token's iat claim, all of its digits. */
  lemma IatSound(data: string, len: nat, ms: seq<Member>, p: nat)
    requires len <= |data| && data[..len] == Enc(Obj(ms)) && Wf(Obj(ms)) && DistinctKeys(ms)
    requires IatOk(data, len, p)
    ensures exists digits :: Digits(digits) && |digits| == TS_DIGITS && Decimal(digits) == IatOf(data, len, p)
                             && Has(Obj(ms), IAT, Number(digits))
  {
    hide At, Decimal, Enc, Has, Content;
    assert |IAT| == 3 && |IAT_KEY| == 6;
    assert IAT_KEY == [QUOTE] + IAT + [QUOTE, ':'];
    var i := TopKey(data, len, ms, p, IAT);
    var v, start := ms[i].value, p + |IAT_KEY|;
    var digits := data[start..start + TS_DIGITS];
    DistinctHas(ms, i);
    assert data[start] == digits[0];
    RawFrom(data, start, v, digits);
    assert Says(v, Number(digits));
  }

  /** A value whose text starts with digits and is followed by structure is that number. */
  lemma RawFrom(data: string, start: nat, v: Json, digits: string)
    requires BytesAt(data, start, Enc(v)) && BytesAt(data, start, digits) && Digits(digits) && digits != []
    requires start + |Enc(v)| < |data| && Structural(data[start + |Enc(v)|])
    requires start + |digits| < |data| && Structural(data[start + |digits|])
    requires Wf(v)
    ensures v == Raw(digits)
  {
    EncStarts(v);
    assert data[start] == digits[0] == Enc(v)[0];
    var text := v.text;
    assert data[start..start + |text|] == text && data[start..start + |digits|] == digits;
    assert forall k :: start <= k < start + |text| ==> data[k] == text[k - start];
    assert forall k :: start <= k < start + |digits| ==> data[k] == digits[k - start];
    assert |text| == |digits|;
  }

  lemma EncStarts(v: Json)
    requires Wf(v)
    ensures Enc(v) != [] && (v.Raw? <==> Enc(v)[0] != QUOTE && !Structural(Enc(v)[0]))
    ensures v.Str? <==> Enc(v)[0] == QUOTE
  {
    match v
    case Str(_) =>
    case Raw(_) =>
    case Arr(items) =>
    case Obj(ms) => MembersLead(ms, '{');
  }

  // ------------------------------------------------------------------ inside linked_accounts

  /** A key and a string value as they stand in an account's text. */
  function Quoted(key: string, value: string): string {
    [QUOTE] + key + [QUOTE, ':', QUOTE] + value + [QUOTE]
  }

  /** The same where that text is itself written inside a string: the quotes escaped, the rest as itself. */
  function Requoted(key: string, value: string): seq<Unit>
    requires AllPlain(key) && AllPlain(value)
  {
    [Short(QUOTE)] + Raws(key) + [Short(QUOTE), Lit(':'), Short(QUOTE)] + Raws(value) + [Short(QUOTE)]
  }

  lemma RequotedSays(key: string, value: string)
    requires AllPlain(key) && AllPlain(value)
    ensures Content(Requoted(key, value)) == Quoted(key, value)
  {
    hide Content, Raws;
    assert |Content(Requoted(key, value))| == |Quoted(key, value)|;
  }

  /** A pattern after a brace or comma of the written text is the written form of a pattern of what it says. */
  lemma LiftPattern(t: seq<Unit>, x: nat, w: seq<Unit>) returns (q: nat)
    requires 1 <= x <= |Esc(t)| && Boundary(Esc(t)[x - 1]) && Esc(w) <= Esc(t)[x..]
    ensures 1 <= q <= |t| && |Esc(t[..q])| == x && Content(t)[q - 1] == Esc(t)[x - 1] && Content(w) <= Content(t)[q..]
  {
    hide Esc, UnitText, Content;
    StructuralAt(t, x - 1);
    q := UnitAt(t, x - 1) + 1;
    EscSplit(t, q);
    assert Esc(t)[x..] == Esc(t[q..]);
    EscPrefix(t[q..], w);
    ContentOfTail(t, q, w);
  }

  lemma ContentOfTail(t: seq<Unit>, q: nat, w: seq<Unit>)
    requires q <= |t| && w <= t[q..]
    ensures Content(w) <= Content(t)[q..]
  {
    hide Content;
    var s := Content(t)[q..];
    assert forall i :: 0 <= i < |w| ==> w[i] == t[q..][i] && Content(w)[i] == s[i];
    assert s[..|w|] == Content(w);
  }

  /** A key and string value written after a brace or comma are a member of one account. */
  lemma AccountMember(accts: seq<Json>, q: nat, key: string, value: string) returns (i: nat)
    requires forall k :: 0 <= k < |accts| ==> FlatAccount(accts[k])
    requires 1 <= q <= |Enc(Arr(accts))| && Boundary(Enc(Arr(accts))[q - 1])
             && Quoted(key, value) <= Enc(Arr(accts))[q..]
    requires Name(key) && AllPlain(value)
    ensures i < |accts| && Opening(accts, i) < q < Closing(accts, i)
    ensures Has(accts[i], key, Words(value))
  {
    hide Esc, Enc, Members, Items, Has, Content;
    var t := Enc(Arr(accts));
    PatternHead(t, q, key, value);
    var items := ArrayText(accts, q);
    var m: nat;
    i, m := QuoteInAccounts(accts, '[', q);
    var ms := accts[i].members;
    AccountText(accts, i, m, q);
    var rest :| t[q..] == KeyValue(ms[m]) + rest;
    MemberIs(ms[m], rest, key, value, t[q..]);
    DistinctHas(ms, m);
    assert Says(ms[m].value, Words(value));
  }

  lemma PatternHead(t: string, q: nat, key: string, value: string)
    requires q <= |t| && Name(key) && Quoted(key, value) <= t[q..]
    ensures q + 4 < |t| && t[q] == QUOTE && !Structural(t[q + 1])
  {
    var w := Quoted(key, value);
    assert t[q] == w[0] && t[q + 1] == w[1] == key[0];
  }

  /** The array's text without its closing bracket; a quote in the text is in there. */
  lemma ArrayText(accts: seq<Json>, q: nat) returns (items: string)
    requires 1 <= q && q + 4 < |Enc(Arr(accts))|
    ensures items == Items(accts, '[') && Enc(Arr(accts)) == items + "]"
  {
    items := Items(accts, '[');
    assert accts != [];
  }

  /** Where a member of an account stands in the array's text. */
  lemma AccountText(accts: seq<Json>, i: nat, m: nat, q: nat)
    requires i < |accts| && accts[i].Obj? && m < |accts[i].members|
    requires q == ItemStart(accts, i) + MemberStart(accts[i].members, m) + 1
    ensures q <= |Enc(Arr(accts))| && exists rest :: Enc(Arr(accts))[q..] == KeyValue(accts[i].members[m]) + rest
    ensures Opening(accts, i) < q < Closing(accts, i)
  {
    hide Items, Members, KeyValue, ItemStart, MemberStart;
    var ms, s, k := accts[i].members, ItemStart(accts, i), MemberStart(accts[i].members, m);
    var items := Items(accts, '[');
    assert Enc(Arr(accts)) == items + "]";
    ItemsAt(accts, '[', i);
    MemberFromKey(ms, '{', m);
    MembersLead(ms, '{');
    var tail := Items(accts[i + 1..], ',') + "]";
    var inner := Members(ms[m + 1..], ',');
    assert Enc(accts[i]) == Members(ms, '{') + "}";
    assert Members(ms, '{')[k + 1..] == KeyValue(ms[m]) + inner;
    assert (items + "]")[q..] == items[s..][k + 1..] + "]";
    assert items[s..][k + 1..] == Members(ms, '{')[k + 1..] + "}" + Items(accts[i + 1..], ',');
    assert (items + "]")[q..] == KeyValue(ms[m]) + (inner + "}" + tail);
    KeyValueNonempty(ms[m]);
  }

  lemma KeyValueNonempty(m: Member)
    ensures |KeyValue(m)| >= 3
  {
  }

  /** A member's text that begins with this key and string value has this key and string value. */
  lemma MemberIs(m: Member, rest: string, key: string, value: string, s: string)
    requires s == KeyValue(m) + rest && Quoted(key, value) <= s
    requires AllPlain(key) && AllPlain(value) && Wf(m.value)
    ensures m == Member(Raws(key), Str(Raws(value))) && Content(m.key) == key && Content(m.value.written) == value
  {
    hide Enc, Esc, Wf, Content, Raws, Quoted;
    var n := |key| + 3;
    PatternPieces(s, key, value);
    KeyPieces(m, rest, s);
    UntilQuote(m.key, key, s[1..]);
    EscOfPlain(key);
    EncStarts(m.value);
    assert s[n] == s[n..][0] == Enc(m.value)[0];
    StringText(m.value);
    var c := m.value.written;
    assert s[n + 1..] == s[n..][1..] == Esc(c) + [QUOTE] + rest;
    UntilQuote(c, value, s[n + 1..]);
  }

  lemma KeyPieces(m: Member, rest: string, s: string)
    requires s == KeyValue(m) + rest
    ensures |Esc(m.key)| + 3 <= |s| && Esc(m.key) + [QUOTE] <= s[1..] && s[|Esc(m.key)| + 3..] == Enc(m.value) + rest
  {
    hide Enc, Esc;
    assert s[1..] == Esc(m.key) + [QUOTE] + ([':'] + Enc(m.value) + rest);
  }

  lemma PatternPieces(s: string, key: string, value: string)
    requires Quoted(key, value) <= s
    ensures |key| + 4 < |s| && key + [QUOTE] <= s[1..] && s[|key| + 3] == QUOTE && value + [QUOTE] <= s[|key| + 4..]
  {
    var w, n := Quoted(key, value), |key|;
    assert w == s[..|w|];
    assert key + [QUOTE] == w[1..n + 2] == s[1..n + 2];
    assert value + [QUOTE] == w[n + 4..] == s[n + 4..|w|];
    assert s[n + 3] == w[n + 3];
  }

  lemma StringText(j: Json)
    requires j.Str?
    ensures Enc(j) == [QUOTE] + Esc(j.written) + [QUOTE]
  {
  }

  // ------------------------------------------------------------------ one account

  lemma BracesStand(accts: seq<Json>, i: nat)
    requires i < |accts| && accts[i].Obj?
    ensures Opening(accts, i) < Closing(accts, i) < |Enc(Arr(accts))|
    ensures Enc(Arr(accts))[Opening(accts, i)] == '{' && Enc(Arr(accts))[Closing(accts, i)] == '}'
  {
    hide Items, Members, ItemStart, KeyValue;
    ItemsAt(accts, '[', i);
    MembersLead(accts[i].members, '{');
    var items, o, c := Items(accts, '['), Opening(accts, i), Closing(accts, i);
    assert Enc(Arr(accts)) == items + "]";
    assert items[o] == items[o..][0] && items[c] == items[o..][|Enc(accts[i])| - 1];
  }

  /** Between members of different accounts stands a brace that is written as itself. */
  lemma BraceBetween(accts: seq<Json>, w: seq<Unit>, i: nat, j: nat, q: nat, r: nat) returns (c: nat)
    requires i < j < |accts| && forall k :: 0 <= k < |accts| ==> accts[k].Obj?
    requires |w| == |Enc(Arr(accts))| && Separated(accts, w)
    requires Opening(accts, i) < q < Closing(accts, i) && Opening(accts, j) < r
    ensures q < c < r && c < |w| && (w[c] == Lit('}') || w[c] == Lit('{'))
  {
    hide Enc, ItemStart;
    var n := i + 1;
    BracesStand(accts, i);
    BracesStand(accts, n);
    StartsGrow(accts, i, n);
    if n < j {
      StartsGrow(accts, n, j);
    }
    assert Parted(accts, w, i, n);
    c := if w[Closing(accts, i)] == Lit('}') then Closing(accts, i) else Opening(accts, n);
  }

  lemma {:induction false} StartsGrow(items: seq<Json>, i: nat, j: nat)
    requires i < j <= |items|
    ensures ItemStart(items, i) + |Enc(items[i])| < ItemStart(items, j) + 1
  {
    hide Enc;
    if i > 0 {
      StartsGrow(items[1..], i - 1, j - 1);
    } else if j > 1 {
      StartsGrow(items[1..], 0, j - 1);
    }
  }

  lemma EscGrows(t: seq<Unit>, q: nat, r: nat)
    requires q < r <= |t|
    ensures |Esc(t[..q])| < |Esc(t[..r])|
  {
    hide UnitText;
    assert t[..r] == t[..q] + t[q..r];
    EscConcat(t[..q], t[q..r]);
    EscHead(t[q..r]);
    UnitShape(t[q]);
  }

  lemma EscKeeps(t: seq<Unit>, c: nat)
    requires c < |t| && t[c].Lit?
    ensures |Esc(t[..c])| < |Esc(t)| && Esc(t)[|Esc(t[..c])|] == t[c].c
  {
    hide UnitText;
    EscSplit(t, c);
    UnitShape(t[c]);
    EscHead(t[c..]);
  }

  /** Where the stringified array sits in the payload, and that the scan leaves the string after it. */
  ghost predicate ArrayAt(data: string, len: nat, la: nat, w: seq<Unit>) {
    var e := Esc(w);
    && len <= |data| && BytesAt(data, la, e) && la + |e| + 1 <= len && data[la + |e|] == QUOTE
    && !At(data[..len], la + |e| + 1).inside
  }

  /** So an object whose bytes all lie in one string with the array's start lies in the array. */
  lemma ObjectInside(data: string, len: nat, la: nat, w: seq<Unit>, a: AccountRef)
    requires ArrayAt(data, len, la, w) && Bounded(data, len, la, a) && RangeOk(data, len, la, a.start, a.end)
    ensures a.end < la + |Esc(w)|
  {
    hide At, Esc;
  }

  /** A pattern at a member boundary within the object is a member of one account. */
  lemma MemberAt(data: string, len: nat, la: nat, accts: seq<Json>, w: seq<Unit>, a: AccountRef, idx: nat,
                 key: string, value: string)
    returns (q: nat, i: nat)
    requires forall k :: 0 <= k < |accts| ==> FlatAccount(accts[k])
    requires Content(w) == Enc(Arr(accts)) && ArrayAt(data, len, la, w) && la <= a.start < a.end < la + |Esc(w)|
    requires a.start < idx && IsMemberStart(data, idx) && Name(key) && AllPlain(value)
    requires BytesAt(data, idx, Esc(Requoted(key, value))) && idx + |Esc(Requoted(key, value))| <= a.end
    ensures q <= |w| && idx == la + |Esc(w[..q])|
    ensures i < |accts| && Opening(accts, i) < q < Closing(accts, i)
    ensures Has(accts[i], key, Words(value))
  {
    hide Esc, Enc, At, Has, FlatAccount, Content, Requoted;
    var e, x, p := Esc(w), idx - la, Requoted(key, value);
    assert e == data[la..la + |e|];
    assert e[x - 1] == data[idx - 1];
    SliceOfSlice(data, la, la + |e|, x, x + |Esc(p)|);
    q := LiftPattern(w, x, p);
    RequotedSays(key, value);
    i := AccountMember(accts, q, key, value);
  }

  /** No brace stands between them in the payload, so two such members are of the same account. */
  lemma SameAccount(data: string, len: nat, la: nat, accts: seq<Json>, w: seq<Unit>, a: AccountRef,
                    q: nat, i: nat, r: nat, j: nat)
    requires |w| == |Enc(Arr(accts))| && Separated(accts, w) && ArrayAt(data, len, la, w)
    requires BraceFree(data, a.start + 1, a.end) && forall k :: 0 <= k < |accts| ==> accts[k].Obj?
    requires q <= |w| && r <= |w| && i < |accts| && j < |accts|
    requires Opening(accts, i) < q < Closing(accts, i) && Opening(accts, j) < r
    requires a.start < la + |Esc(w[..q])| && la + |Esc(w[..r])| < a.end
    ensures i >= j
  {
    hide Esc, Enc, At, ItemStart, Separated;
    if i < j {
      var c := BraceBetween(accts, w, i, j, q, r);
      EscGrows(w, q, c);
      EscGrows(w, c, r);
      EscKeeps(w, c);
    }
  }

  lemma EscWrap(key: string, value: string)
    requires AllPlain(key) && AllPlain(value)
    ensures Esc(Requoted(key, value)) == QUOTE_ESC + key + KEY_VALUE_SEP_ESC + value + QUOTE_ESC
  {
    hide Esc, UnitText, Raws;
    var q, sep: seq<Unit> := [Short(QUOTE)], [Short(QUOTE), Lit(':'), Short(QUOTE)];
    EscOfPlain(key);
    EscOfPlain(value);
    EscConcat(q, Raws(key));
    EscConcat(q + Raws(key), sep);
    EscConcat(q + Raws(key) + sep, Raws(value));
    EscConcat(q + Raws(key) + sep + Raws(value), q);
    EscSep();
  }

  lemma EscSep()
    ensures Esc([Short(QUOTE)]) == QUOTE_ESC && Esc([Short(QUOTE), Lit(':'), Short(QUOTE)]) == KEY_VALUE_SEP_ESC
  {
    var q: seq<Unit> := [Short(QUOTE)];
    EscOne(Short(QUOTE));
    EscOne(Lit(':'));
    EscConcat(q, [Lit(':')]);
    EscConcat(q + [Lit(':')], q);
    assert [Short(QUOTE), Lit(':'), Short(QUOTE)] == q + [Lit(':')] + q;
  }

  /** Bytes of written text without a backslash, not preceded by one, are plain. */
  lemma PlainBytes(t: seq<Unit>, x: nat, v: string)
    requires 1 <= x <= |Esc(t)| && v <= Esc(t)[x..] && Esc(t)[x - 1] != BACKSLASH && BACKSLASH !in v
    ensures AllPlain(v)
  {
    hide Esc, UnitText;
    forall k | 0 <= k < |v|
      ensures Plain(v[k])
    {
      assert v[k] == Esc(t)[x + k];
      EscAt(t, x + k);
      UnitShape(t[UnitAt(t, x + k)]);
      assert k > 0 ==> v[k - 1] == Esc(t)[x + k - 1] && v[k - 1] in v;
      if v[k] == QUOTE {
        QuoteAt(t, x + k);
      }
    }
  }

  // ------------------------------------------------------------------ the theorem

  lemma KeyValueRun(m: Member, e: int)
    requires Wf(m.value)
    ensures Run(Out(e), KeyValue(m)) == Out(e)
  {
    hide Run, Esc, Enc;
    var name := [QUOTE] + Esc(m.key) + [QUOTE];
    StringMarks(m.key, e);
    RunOne(Out(e), ':');
    EncRun(m.value, e);
    assert KeyValue(m) == name + ([':'] + Enc(m.value));
    RunConcat(Out(e), name, [':'] + Enc(m.value));
    RunConcat(Out(e), [':'], Enc(m.value));
    assert name[..|name|] == name;
  }

  /** After a top-level member's text the scan is back outside every string. */
  lemma AfterMember(payload: string, p: nat, m: Member)
    requires p <= |payload| && KeyValue(m) <= payload[p..] && Wf(m.value)
    requires TopLevelAt(payload, p) && p + |KeyValue(m)| < |payload|
    ensures At(payload, p + |KeyValue(m)|) == Out(1)
  {
    hide Run, Esc, Enc, KeyValue;
    var k := KeyValue(m);
    RunBounds(payload[..p]);
    assert At(payload, p) == Out(1);
    KeyValueRun(m, 1);
    assert payload[..p + |k|] == payload[..p] + k;
    RunConcat(START, payload[..p], k);
  }

  lemma ArrayFound(data: string, len: nat, ms: seq<Member>, accts: seq<Json>, w: seq<Unit>, p: nat)
    requires len <= |data| && Token(data[..len], ms, accts, w) && LinkedAccountsOk(data, len, p) && p < len
    ensures ArrayAt(data, len, p + |LINKED_ACCOUNTS_KEY|, w)
  {
    hide At, Enc, ArrayAt, Content;
    var head := [QUOTE] + LINKED_ACCOUNTS + [QUOTE, ':'];
    assert LINKED_ACCOUNTS_KEY == head + [QUOTE];
    Shorten(data, p, head, [QUOTE]);
    ArrayValue(data, len, ms, w, p, LINKED_ACCOUNTS);
    assert |LINKED_ACCOUNTS_KEY| == |LINKED_ACCOUNTS| + 4;
  }

  /** A top-level key whose value is the stringified array. */
  lemma ArrayValue(data: string, len: nat, ms: seq<Member>, w: seq<Unit>, p: nat, key: string)
    requires len <= |data| && data[..len] == Enc(Obj(ms)) && Wf(Obj(ms)) && AllPlain(key)
    requires forall i :: 0 <= i < |ms| && Content(ms[i].key) == key ==> ms[i].value == Str(w)
    requires p < len && TopLevelAt(data[..len], p) && IsMemberStart(data, p)
    requires BytesAt(data, p, [QUOTE] + key + [QUOTE, ':'])
    ensures ArrayAt(data, len, p + |key| + 4, w)
  {
    hide At, Enc, Esc, Members, Content;
    var i := TopKey(data, len, ms, p, key);
    StringText(ms[i].value);
    StringBytes(data, p + |key| + 3, Esc(w));
    MemberWritten(data, len, p, ms[i], key);
    AfterMember(data[..len], p, ms[i]);
  }

  lemma StringBytes(data: string, v: nat, e: string)
    requires BytesAt(data, v, [QUOTE] + e + [QUOTE])
    ensures BytesAt(data, v + 1, e) && data[v + 1 + |e|] == QUOTE
  {
    var w := [QUOTE] + e + [QUOTE];
    SliceOfSlice(data, v, v + |w|, 1, |e| + 1);
    assert w[1..|e| + 1] == e;
    assert data[v..v + |w|][|e| + 1] == w[|e| + 1];
  }

  lemma MemberWritten(data: string, len: nat, p: nat, m: Member, key: string)
    requires AllPlain(key) && m.key == Raws(key)
    requires len <= |data| && p + |key| + 3 + |Enc(m.value)| < len
    requires BytesAt(data, p, [QUOTE] + key + [QUOTE, ':']) && BytesAt(data, p + |key| + 3, Enc(m.value))
    ensures KeyValue(m) <= data[..len][p..] && |KeyValue(m)| == |key| + 3 + |Enc(m.value)| && Esc(m.key) == key
  {
    hide Enc, Esc;
    var head := [QUOTE] + key + [QUOTE, ':'];
    EscOfPlain(key);
    Extend(data, p, head, Enc(m.value));
    assert KeyValue(m) == head + Enc(m.value);
    assert data[..len][p..][..|KeyValue(m)|] == data[p..p + |KeyValue(m)|];
  }

  /** Accepted offsets of one account slot. */
  lemma AccountSound(data: string, len: nat, la: nat, accts: seq<Json>, w: seq<Unit>, a: AccountRef, id: nat)
    requires forall k :: 0 <= k < |accts| ==> FlatAccount(accts[k])
    requires Content(w) == Enc(Arr(accts)) && Separated(accts, w)
    requires ArrayAt(data, len, la, w) && AccountOk(data, len, la, a, id)
    ensures Listed(accts, id, ValueOf(data, a, id))
  {
    hide At, Enc, Esc, TypeName, KeyName, FlatAccount, Braces, Boundary, Name, AllPlain, Has, BytesAt, Content,
         Requoted,
      Separated, Opening, Closing;
    ObjectInside(data, len, la, w, a);
    TableTypes(id);
    TableKeys(id);
    TypeKeyIsName();
    FlatIsObj(accts);
    TypeBytes(data, a, id);
    var q, i := MemberAt(data, len, la, accts, w, a, a.typeIdx, "type", TypeName(id));
    ValuePlain(data, len, la, w, a, id);
    ValueWritten(data, a, id);
    var r, j := MemberAt(data, len, la, accts, w, a, a.valueIdx, KeyName(id), ValueOf(data, a, id));
    SameAccount(data, len, la, accts, w, a, q, i, r, j);
    SameAccount(data, len, la, accts, w, a, r, j, q, i);
  }

  lemma FlatIsObj(accts: seq<Json>)
    requires forall k :: 0 <= k < |accts| ==> FlatAccount(accts[k])
    ensures forall k :: 0 <= k < |accts| ==> accts[k].Obj?
  {
    assert forall k :: 0 <= k < |accts| ==> FlatAccount(accts[k]);
  }

  lemma TypeKeyIsName()
    ensures Name("type") && AllPlain("type")
  {
  }

  lemma TypeBytes(data: string, a: AccountRef, id: nat)
    requires id < NUM_TYPES && TypeOk(data, a, id) && Name(TypeName(id)) && AllPlain("type")
    ensures var p := Esc(Requoted("type", TypeName(id)));
            BytesAt(data, a.typeIdx, p) && a.typeIdx + |p| <= a.end
  {
    hide TypeName, Esc, Requoted;
    var n := TypeName(id);
    EscWrap("type", n);
    Extend(data, a.typeIdx, TYPE_KEY_ESC, n);
    Extend(data, a.typeIdx, TYPE_KEY_ESC + n, QUOTE_ESC);
    assert TYPE_KEY_ESC == QUOTE_ESC + "type" + KEY_VALUE_SEP_ESC;
    assert TYPE_KEY_ESC + n + QUOTE_ESC == QUOTE_ESC + "type" + KEY_VALUE_SEP_ESC + n + QUOTE_ESC;
  }

  lemma ValueWritten(data: string, a: AccountRef, id: nat)
    requires id < NUM_TYPES && ValueOk(data, a, id) && Name(KeyName(id)) && AllPlain(ValueOf(data, a, id))
    ensures var p := Esc(Requoted(KeyName(id), ValueOf(data, a, id)));
            BytesAt(data, a.valueIdx, p) && a.valueIdx + |p| <= a.end
  {
    hide KeyName, Esc, Requoted;
    var k, v := KeyName(id), ValueOf(data, a, id);
    EscWrap(k, v);
    Extend(data, a.valueIdx, QUOTE_ESC, k);
    Extend(data, a.valueIdx, QUOTE_ESC + k, KEY_VALUE_SEP_ESC);
    Extend(data, a.valueIdx, QUOTE_ESC + k + KEY_VALUE_SEP_ESC, v);
    Extend(data, a.valueIdx, QUOTE_ESC + k + KEY_VALUE_SEP_ESC + v, QUOTE_ESC);
  }

  lemma ValuePlain(data: string, len: nat, la: nat, w: seq<Unit>, a: AccountRef, id: nat)
    requires ArrayAt(data, len, la, w) && AccountOk(data, len, la, a, id) && a.end < la + |Esc(w)|
    ensures AllPlain(ValueOf(data, a, id))
  {
    hide At, Esc, KeyName, TypeName, Boundary, Braces, RangeOk, TypeOk;
    var v, s := ValueOf(data, a, id), ValueStart(a, id);
    var e, x := Esc(w), s - la;
    assert e == data[la..la + |e|];
    SliceOfSlice(data, la, la + |e|, x, x + |v|);
    assert e[x..][..|v|] == e[x..x + |v|] == v;
    assert e[x - 1] == data[s - 1] == data[s - 5..s][4] == KEY_VALUE_SEP_ESC[4];
    PlainBytes(w, x, v);
  }

  /**
   What accepted offsets are meant to prove: one single listed account has exactly the public type and,
   under that type's key, exactly the value that is hashed; the wallet slot, when used, likewise names a
   listed wallet; and the issue time is the token's iat claim.
   */
  ghost predicate Sound(data: string, len: nat, ms: seq<Member>, accts: seq<Json>, off: Offsets, id: nat, wallet: nat)
    requires Accepts(data, len, off, id, wallet)
  {
    && Listed(accts, id, ValueOf(data, off.account, id))
    && (off.wallet.valueLen != 0 ==> Listed(accts, WALLET, ValueOf(data, off.wallet, WALLET)))
    && (exists digits :: Digits(digits) && |digits| == TS_DIGITS && Decimal(digits) == IatOf(data, len, off.iatIdx)
                         && Has(Obj(ms), IAT, Number(digits)))
  }

  /** Circuit soundness, for every token whose accounts are separated by a brace written as itself. */
  lemma CircuitSound(data: string, len: nat, ms: seq<Member>, accts: seq<Json>, w: seq<Unit>,
                     off: Offsets, id: nat, wallet: nat)
    requires len <= |data| && Token(data[..len], ms, accts, w) && Separated(accts, w)
    requires Accepts(data, len, off, id, wallet)
    ensures Sound(data, len, ms, accts, off, id, wallet)
  {
    hide At, Enc, AccountOk, Listed, Has, Decimal, Digits, Wf, Boundary, Content, Separated;
    var la := off.laIdx + |LINKED_ACCOUNTS_KEY|;
    TokenParts(data[..len], ms, accts, w);
    assert off.laIdx < len by {
      PastTheEnd(data[..len], off.laIdx);
    }
    ArrayFound(data, len, ms, accts, w, off.laIdx);
    AccountSound(data, len, la, accts, w, off.account, id);
    if off.wallet.valueLen != 0 {
      AccountSound(data, len, la, accts, w, off.wallet, WALLET);
    }
    IatSound(data, len, ms, off.iatIdx);
  }

  lemma TokenParts(payload: string, ms: seq<Member>, accts: seq<Json>, w: seq<Unit>)
    requires Token(payload, ms, accts, w)
    ensures payload == Enc(Obj(ms)) && Wf(Obj(ms)) && DistinctKeys(ms)
  {
  }

  /** Past the payload's end the scan is at depth zero, so nothing there is top level. */
  lemma PastTheEnd(payload: string, i: nat)
    requires At(payload, |payload|).depth == 0 && TopLevelAt(payload, i)
    ensures i < |payload|
  {
  }
}
