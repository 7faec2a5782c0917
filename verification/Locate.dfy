/**
 Recognising a member by where its key's opening quote stands: outside every string one bracket deep, or,
 in the text of an array of flat objects, between a brace or comma and the key's first byte.
 */
module Locate {
  import opened Json
  import opened Scan
  import opened Documents

  /** A member's key can only start after a brace or a comma. */
  predicate Boundary(c: char) {
    c == '{' || c == ','
  }

  /** Where the i-th member's text, its leading brace or comma included, starts in its object's text. */
  function MemberStart(ms: seq<Member>, i: nat): nat
    requires i <= |ms|
  {
    if i == 0 then 0 else |MemberText(ms[0], ',')| + MemberStart(ms[1..], i - 1)
  }

  /** Where the i-th item starts in its array's text. */
  function ItemStart(items: seq<Json>, i: nat): nat
    requires i <= |items|
  {
    if i == 0 then 1 else 1 + |Enc(items[0])| + ItemStart(items[1..], i - 1)
  }

  lemma MembersLead(ms: seq<Member>, lead: char)
    ensures ms == [] ==> Members(ms, lead) == []
    ensures ms != [] ==> Members(ms, lead) != [] && Members(ms, lead)[0] == lead
  {
  }

  lemma {:induction false} MembersAt(ms: seq<Member>, lead: char, i: nat)
    requires i < |ms|
    ensures MemberStart(ms, i) <= |Members(ms, lead)|
    ensures Members(ms, lead)[MemberStart(ms, i)..]
            == MemberText(ms[i], if i == 0 then lead else ',') + Members(ms[i + 1..], ',')
  {
    hide Esc, Enc;
    if i > 0 {
      MembersAt(ms[1..], ',', i - 1);
      var a, rest := MemberText(ms[0], lead), Members(ms[1..], ',');
      assert |a| == |MemberText(ms[0], ',')|;
      assert ms[1..][i - 1] == ms[i] && ms[1..][i..] == ms[i + 1..];
      assert (a + rest)[MemberStart(ms, i)..] == rest[MemberStart(ms[1..], i - 1)..];
    }
  }

  lemma MemberFromKey(ms: seq<Member>, lead: char, i: nat)
    requires i < |ms|
    ensures MemberStart(ms, i) < |Members(ms, lead)|
    ensures Members(ms, lead)[MemberStart(ms, i) + 1..]
            == KeyValue(ms[i]) + Members(ms[i + 1..], ',')
  {
    hide KeyValue, Members;
    MembersAt(ms, lead, i);
    var t := Members(ms, lead)[MemberStart(ms, i)..];
    assert Members(ms, lead)[MemberStart(ms, i) + 1..] == t[1..];
  }

  lemma {:induction false} ItemsAt(items: seq<Json>, lead: char, i: nat)
    requires i < |items|
    ensures ItemStart(items, i) <= |Items(items, lead)|
    ensures Items(items, lead)[ItemStart(items, i)..] == Enc(items[i]) + Items(items[i + 1..], ',')
  {
    hide Enc;
    var a, rest := [lead] + Enc(items[0]), Items(items[1..], ',');
    if i > 0 {
      ItemsAt(items[1..], ',', i - 1);
      assert items[1..][i - 1] == items[i] && items[1..][i..] == items[i + 1..];
      assert (a + rest)[ItemStart(items, i)..] == rest[ItemStart(items[1..], i - 1)..];
    } else {
      assert (a + rest)[1..] == Enc(items[0]) + rest;
    }
  }

  // ------------------------------------------------------------------ by the scan

  /** Within one member's text only the key's opening quote passes all three tests. */
  lemma QuoteInMember(m: Member, lead: char, e: int, p: nat)
    requires Boundary(lead) && Wf(m.value)
    requires 1 <= p < |MemberText(m, lead)| && MemberText(m, lead)[p] == QUOTE && Boundary(MemberText(m, lead)[p - 1])
    requires var r := Run(Base(lead, e), MemberText(m, lead)[..p]); !r.inside && r.depth == e + 1
    ensures p == 1
  {
    hide Run, Esc, Enc;
    var t, n := MemberText(m, lead), |Esc(m.key)|;
    if 2 <= p <= n + 2 {
      KeyInside(m, lead, e, p);
    } else if p > n + 4 {
      var head, x := [lead] + ([QUOTE] + Esc(m.key) + [QUOTE, ':']), p - n - 4;
      MemberHead(m, lead, e);
      assert t[..p] == head + Enc(m.value)[..x];
      RunConcat(Base(lead, e), head, Enc(m.value)[..x]);
      ValueInside(m.value, e + 1, x);
    }
  }

  lemma KeyInside(m: Member, lead: char, e: int, p: nat)
    requires Boundary(lead) && 2 <= p <= |Esc(m.key)| + 2 && p < |MemberText(m, lead)|
    ensures Run(Base(lead, e), MemberText(m, lead)[..p]).inside
  {
    hide Run, Esc, Enc;
    var name := [QUOTE] + Esc(m.key) + [QUOTE];
    assert MemberText(m, lead)[..p] == [lead] + name[..p - 1];
    RunCons(Base(lead, e), lead, name[..p - 1]);
    StringMarks(m.key, e + 1);
  }

  /** Strictly inside a value the reader is in a string or deeper, or there is no quote at all. */
  lemma ValueInside(j: Json, e: int, x: nat)
    requires Wf(j) && 1 <= x < |Enc(j)|
    ensures var r := Run(Out(e), Enc(j)[..x]); Enc(j)[x] == QUOTE ==> r.inside || r.depth > e
  {
    hide Run;
    EncRun(j, e);
    var t := Enc(j)[..|Enc(j)| - 1];
    assert t[..x] == Enc(j)[..x];
  }

  /** In an object's text: a quote outside strings, at the object's own depth, after a brace or comma. */
  lemma {:induction false} QuoteAtDepth(ms: seq<Member>, lead: char, e: int, p: nat) returns (i: nat)
    requires Boundary(lead) && forall k :: 0 <= k < |ms| ==> Wf(ms[k].value)
    requires 1 <= p < |Members(ms, lead)| && Members(ms, lead)[p] == QUOTE && Boundary(Members(ms, lead)[p - 1])
    requires var r := Run(Base(lead, e), Members(ms, lead)[..p]); !r.inside && r.depth == e + 1
    ensures i < |ms| && p == MemberStart(ms, i) + 1
  {
    hide Run, Esc, Enc;
    var a, rest := MemberText(ms[0], lead), Members(ms[1..], ',');
    assert |a| == |MemberText(ms[0], ',')|;
    PrefixOfSum(a, rest, p);
    if p < |a| {
      QuoteInMember(ms[0], lead, e, p);
      i := 0;
    } else {
      MemberRun(ms[0], lead, e);
      RunConcat(Base(lead, e), a, rest[..p - |a|]);
      MembersLead(ms[1..], ',');
      assert p > |a|;
      i := QuoteAtDepth(ms[1..], ',', e, p - |a|);
      i := i + 1;
    }
  }

  /** The scan's top level: such a quote starts a member of the document's root object. */
  lemma TopMember(ms: seq<Member>, p: nat) returns (i: nat)
    requires Wf(Obj(ms))
    requires 1 <= p < |Enc(Obj(ms))| && Enc(Obj(ms))[p] == QUOTE && Boundary(Enc(Obj(ms))[p - 1])
    requires !At(Enc(Obj(ms)), p).inside && At(Enc(Obj(ms)), p).depth == 1
    ensures i < |ms| && p == MemberStart(ms, i) + 1
    ensures Enc(Obj(ms))[p..] == KeyValue(ms[i]) + Members(ms[i + 1..], ',') + "}"
  {
    hide Run, KeyValue, MemberText, MemberStart;
    var t := if ms == [] then "{" else Members(ms, '{');
    assert Enc(Obj(ms)) == t + "}";
    assert Enc(Obj(ms))[..p] == t[..p];
    assert ms != [] by {
      assert ms == [] ==> |t| == 1;
    }
    i := QuoteAtDepth(ms, '{', 0, p);
    MemberFromKey(ms, '{', i);
    assert (t + "}")[p..] == t[p..] + "}";
  }

  // ------------------------------------------------------------------ by the bytes around it

  /** An account as Privy writes it: string and scalar members, each key once. */
  predicate FlatAccount(j: Json) {
    && j.Obj? && DistinctKeys(j.members)
    && forall i :: 0 <= i < |j.members| ==>
         j.members[i].value.Str? || (j.members[i].value.Raw? && RawText(j.members[i].value.text))
  }

  /** In a flat member's text (and what follows it) only a key's opening quote stands so. */
  lemma QuoteInFlatMember(m: Member, lead: char, next: string, q: nat)
    requires Boundary(lead) && (m.value.Str? || (m.value.Raw? && RawText(m.value.text)))
    requires next != [] && Structural(next[0])
    requires var t := MemberText(m, lead) + next;
             1 <= q < |MemberText(m, lead)| && t[q] == QUOTE && Boundary(t[q - 1]) && !Structural(t[q + 1])
    ensures q == 1
  {
    hide Esc;
    var t, n := MemberText(m, lead) + next, |Esc(m.key)|;
    if 2 <= q < n + 2 {
      assert t[q] == Esc(m.key)[q - 2];
      QuoteAt(m.key, q - 2);
    } else if q >= n + 4 {
      var x := q - n - 4;
      assert t[q] == Enc(m.value)[x];
      if m.value.Str? && 1 <= x <= |Esc(m.value.written)| {
        assert Enc(m.value)[x] == Esc(m.value.written)[x - 1];
        QuoteAt(m.value.written, x - 1);
      }
    }
  }

  lemma {:induction false} QuoteInFlatMembers(ms: seq<Member>, lead: char, q: nat) returns (i: nat)
    requires Boundary(lead)
    requires forall k :: 0 <= k < |ms| ==> ms[k].value.Str? || (ms[k].value.Raw? && RawText(ms[k].value.text))
    requires var t := Members(ms, lead) + "}";
             1 <= q < |t| - 1 && t[q] == QUOTE && Boundary(t[q - 1]) && !Structural(t[q + 1])
    ensures i < |ms| && q == MemberStart(ms, i) + 1
  {
    hide Esc, Enc;
    var a, rest := MemberText(ms[0], lead), Members(ms[1..], ',') + "}";
    assert |a| == |MemberText(ms[0], ',')|;
    assert Members(ms, lead) + "}" == a + rest;
    MembersLead(ms[1..], ',');
    if q < |a| {
      QuoteInFlatMember(ms[0], lead, rest, q);
      i := 0;
    } else {
      assert (a + rest)[q] == rest[q - |a|] && (a + rest)[q + 1] == rest[q + 1 - |a|];
      assert q > |a|;
      assert (a + rest)[q - 1] == rest[q - 1 - |a|];
      i := QuoteInFlatMembers(ms[1..], ',', q - |a|);
      i := i + 1;
    }
  }

  /** The account and member that a quote in an account array's text opens. */
  lemma {:induction false} QuoteInAccounts(accts: seq<Json>, lead: char, q: nat) returns (i: nat, m: nat)
    requires Structural(lead) && forall k :: 0 <= k < |accts| ==> FlatAccount(accts[k])
    requires var t := Items(accts, lead);
             1 <= q < |t| - 1 && t[q] == QUOTE && Boundary(t[q - 1]) && !Structural(t[q + 1])
    ensures i < |accts| && accts[i].Obj? && m < |accts[i].members|
            && q == ItemStart(accts, i) + MemberStart(accts[i].members, m) + 1
  {
    hide Esc, Members, DistinctKeys;
    var ms := accts[0].members;
    var body := if ms == [] then "{" else Members(ms, '{');
    var a, rest := [lead] + (body + "}"), Items(accts[1..], ',');
    assert Items(accts, lead) == a + rest;
    if q < |a| {
      assert (a + rest)[q] == (body + "}")[q - 1];
      assert q - 1 < |body|;
      assert (a + rest)[q + 1] == (body + "}")[q];
      MembersLead(ms, '{');
      assert q - 1 >= 1;
      assert (a + rest)[q - 1] == (body + "}")[q - 2];
      m := QuoteInFlatMembers(ms, '{', q - 1);
      i := 0;
    } else {
      assert (a + rest)[q] == rest[q - |a|] && (a + rest)[q + 1] == rest[q + 1 - |a|];
      assert rest[0] == ',';
      assert (a + rest)[q - 1] == rest[q - 1 - |a|];
      i, m := QuoteInAccounts(accts[1..], ',', q - |a|);
      i := i + 1;
    }
  }
}
