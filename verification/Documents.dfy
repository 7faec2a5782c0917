/**
 What the scan finds in a JSON document, and how a member is recognised in its text: at the top level
 by the scan, inside a stringified array by the bytes around it.
 */
module Documents {
  import opened Json
  import opened Scan

  /** Outside every string, `e` brackets deep. */
  function Out(e: int): Mark {
    Mark(false, false, e)
  }

  function In(e: int): Mark {
    Mark(true, false, e)
  }

  /** Reading on from `m`, every byte of `s` leaves the reader in a string or more than `d` deep. */
  ghost predicate Deep(m: Mark, s: string, d: int) {
    forall x :: 1 <= x <= |s| ==> Run(m, s[..x]).inside || Run(m, s[..x]).depth > d
  }

  /** Reading on from `m`, every byte of `s` leaves the reader in the string it was in. */
  ghost predicate Stays(m: Mark, s: string) {
    Run(m, s) == m && forall x :: 0 <= x <= |s| ==> Run(m, s[..x]).inside && Run(m, s[..x]).depth == m.depth
  }

  // ------------------------------------------------------------------ composing

  lemma PrefixOfSum(s: string, t: string, x: nat)
    requires x <= |s| + |t|
    ensures x <= |s| ==> (s + t)[..x] == s[..x]
    ensures x >= |s| ==> (s + t)[..x] == s + t[..x - |s|]
  {
  }

  lemma DeepConcat(m: Mark, s: string, t: string, d: int)
    requires Deep(m, s, d) && Deep(Run(m, s), t, d)
    ensures Deep(m, s + t, d) && Run(m, s + t) == Run(Run(m, s), t)
  {
    hide Run;
    RunConcat(m, s, t);
    forall x | 1 <= x <= |s + t|
      ensures Run(m, (s + t)[..x]).inside || Run(m, (s + t)[..x]).depth > d
    {
      PrefixOfSum(s, t, x);
      if x > |s| {
        RunConcat(m, s, t[..x - |s|]);
      }
    }
  }

  lemma DeepOne(m: Mark, c: char, d: int)
    requires Step(m, c).inside || Step(m, c).depth > d
    ensures Deep(m, [c], d) && Run(m, [c]) == Step(m, c)
  {
    RunOne(m, c);
    assert [c][..1] == [c];
  }

  lemma StaysConcat(m: Mark, s: string, t: string)
    requires Stays(m, s) && Stays(m, t)
    ensures Stays(m, s + t)
  {
    hide Run;
    RunConcat(m, s, t);
    forall x | 0 <= x <= |s + t|
      ensures Run(m, (s + t)[..x]).inside && Run(m, (s + t)[..x]).depth == m.depth
    {
      PrefixOfSum(s, t, x);
      if x > |s| {
        RunConcat(m, s, t[..x - |s|]);
      }
    }
  }

  // ------------------------------------------------------------------ strings

  lemma UnitStays(u: Unit, e: int)
    ensures Stays(In(e), UnitText(u))
  {
    hide UnitText;
    var s := UnitText(u);
    UnitShape(u);
    assert s[..0] == [] && s[..1] == [s[0]];
    RunOne(In(e), s[0]);
    if !u.Lit? {
      NameStays(s, e, |s|);
      forall x | 0 <= x <= |s|
        ensures Run(In(e), s[..x]).inside && Run(In(e), s[..x]).depth == e
      {
        if x >= 2 {
          NameStays(s, e, x);
        }
      }
      assert s[..|s|] == s;
    } else {
      assert s == [u.c];
    }
  }

  /** A backslash, any byte, and then bytes that are neither quotes nor backslashes. */
  lemma {:induction false} NameStays(s: string, e: int, x: nat)
    requires 2 <= x <= |s| && s[0] == BACKSLASH
    requires forall k :: 2 <= k < |s| ==> s[k] != QUOTE && s[k] != BACKSLASH
    ensures Run(In(e), s[..x]) == In(e)
  {
    if x > 2 {
      NameStays(s, e, x - 1);
      assert s[..x][..x - 1] == s[..x - 1];
    } else {
      assert s[..2] == [s[0]] + [s[1]];
      RunCons(In(e), s[0], [s[1]]);
      RunOne(Step(In(e), s[0]), s[1]);
    }
  }

  lemma {:induction false} EscStays(s: seq<Unit>, e: int)
    ensures Stays(In(e), Esc(s))
  {
    hide UnitText;
    if s == [] {
      assert Esc(s)[..0] == [];
    } else {
      UnitStays(s[0], e);
      EscStays(s[1..], e);
      StaysConcat(In(e), UnitText(s[0]), Esc(s[1..]));
    }
  }

  /** A written string: inside from its first content byte up to and including its closing quote. */
  lemma StringMarks(s: seq<Unit>, e: int)
    ensures var t := [QUOTE] + Esc(s) + [QUOTE];
            && Run(Out(e), t) == Out(e)
            && forall x :: 0 <= x <= |t| ==>
                 (Run(Out(e), t[..x]).inside <==> 1 <= x < |t|) && Run(Out(e), t[..x]).depth == e
  {
    hide Esc, Run;
    var t := [QUOTE] + Esc(s) + [QUOTE];
    EscStays(s, e);
    forall x | 0 <= x <= |t|
      ensures (Run(Out(e), t[..x]).inside <==> 1 <= x < |t|) && Run(Out(e), t[..x]).depth == e
      ensures x == |t| ==> Run(Out(e), t[..x]) == Out(e)
    {
      if x == 0 {
        RunNothing(Out(e), t[..x]);
      } else if x < |t| {
        assert t[..x] == [QUOTE] + Esc(s)[..x - 1];
        RunCons(Out(e), QUOTE, Esc(s)[..x - 1]);
      } else {
        assert t[..x] == [QUOTE] + (Esc(s) + [QUOTE]);
        RunCons(Out(e), QUOTE, Esc(s) + [QUOTE]);
        RunConcat(In(e), Esc(s), [QUOTE]);
        RunOne(In(e), QUOTE);
      }
    }
    assert t[..|t|] == t;
  }

  lemma RunNothing(m: Mark, s: string)
    requires s == []
    ensures Run(m, s) == m
  {
  }

  lemma {:induction false} RawMarks(s: string, e: int)
    requires forall i :: 0 <= i < |s| ==> RawChar(s[i])
    ensures forall x :: 0 <= x <= |s| ==> Run(Out(e), s[..x]) == Out(e)
  {
    if s == [] {
    } else {
      var t := s[..|s| - 1];
      RawMarks(t, e);
      forall x | 0 <= x <= |s|
        ensures Run(Out(e), s[..x]) == Out(e)
      {
        if x < |s| {
          assert s[..x] == t[..x];
        } else {
          assert s[..x] == s;
          assert t[..|t|] == t;
        }
      }
    }
  }

  // ------------------------------------------------------------------ documents

  lemma AllButLast(s: string, c: char)
    ensures (s + [c])[..|s + [c]| - 1] == s
  {
  }

  /** A document leaves the reader where it started, and everything strictly inside it is deeper. */
  lemma {:induction false} EncRun(j: Json, e: int)
    requires Wf(j)
    ensures Run(Out(e), Enc(j)) == Out(e) && Deep(Out(e), Enc(j), e - 1) && Enc(j) != []
    ensures !j.Raw? ==> Deep(Out(e), Enc(j)[..|Enc(j)| - 1], e)
    decreases j, 1
  {
    hide Run, Esc;
    match j
    case Str(s) =>
      StringMarks(s, e);
      var t := Enc(j)[..|Enc(j)| - 1];
      assert forall x :: 1 <= x <= |t| ==> t[..x] == Enc(j)[..x];
    case Raw(s) =>
      RawMarks(s, e);
      assert s[..|s|] == s;
    case Arr(items) =>
      ItemsRun(items, '[', e);
      BracketRun(if items == [] then "[" else Items(items, '['), '[', ']', e);
    case Obj(ms) =>
      MembersRun(ms, '{', e);
      BracketRun(if ms == [] then "{" else Members(ms, '{'), '{', '}', e);
  }

  lemma BracketRun(body: string, open: char, close: char, e: int)
    requires (open == '{' && close == '}') || (open == '[' && close == ']')
    requires body == [open] || (Run(Out(e), body) == Out(e + 1) && Deep(Out(e), body, e))
    ensures Run(Out(e), body + [close]) == Out(e) && Deep(Out(e), body + [close], e - 1)
    ensures Deep(Out(e), (body + [close])[..|body + [close]| - 1], e)
  {
    hide Run;
    if body == [open] {
      DeepOne(Out(e), open, e);
    }
    DeepOne(Out(e + 1), close, e - 1);
    DeepConcat(Out(e), body, [close], e - 1);
    AllButLast(body, close);
  }

  function Base(lead: char, e: int): Mark {
    if lead == ',' then Out(e + 1) else Out(e)
  }

  lemma {:induction false} ItemsRun(items: seq<Json>, lead: char, e: int)
    requires lead == '[' || lead == ','
    requires forall i :: 0 <= i < |items| ==> Wf(items[i])
    ensures Run(Base(lead, e), Items(items, lead)) == if items == [] then Base(lead, e) else Out(e + 1)
    ensures Deep(Base(lead, e), Items(items, lead), e)
    decreases items, 0
  {
    hide Run;
    if items == [] {
      RunNothing(Base(lead, e), []);
    } else {
      var m, rest := Base(lead, e), Items(items[1..], ',');
      DeepOne(m, lead, e);
      EncRun(items[0], e + 1);
      DeepConcat(m, [lead], Enc(items[0]), e);
      ItemsRun(items[1..], ',', e);
      DeepConcat(m, [lead] + Enc(items[0]), rest, e);
    }
  }

  lemma MemberHead(m: Member, lead: char, e: int)
    requires lead == '{' || lead == ','
    ensures var head := [lead] + ([QUOTE] + Esc(m.key) + [QUOTE, ':']);
            Run(Base(lead, e), head) == Out(e + 1) && Deep(Base(lead, e), head, e)
  {
    hide Run, Esc;
    var name := [QUOTE] + Esc(m.key) + [QUOTE];
    DeepOne(Base(lead, e), lead, e);
    StringMarks(m.key, e + 1);
    DeepConcat(Base(lead, e), [lead], name, e);
    DeepOne(Out(e + 1), ':', e);
    DeepConcat(Base(lead, e), [lead] + name, [':'], e);
    assert [lead] + ([QUOTE] + Esc(m.key) + [QUOTE, ':']) == [lead] + name + [':'];
  }

  lemma MemberRun(m: Member, lead: char, e: int)
    requires (lead == '{' || lead == ',') && Wf(m.value)
    ensures Run(Base(lead, e), MemberText(m, lead)) == Out(e + 1) && Deep(Base(lead, e), MemberText(m, lead), e)
    decreases m, 1
  {
    hide Run, Esc;
    MemberHead(m, lead, e);
    EncRun(m.value, e + 1);
    var head := [lead] + ([QUOTE] + Esc(m.key) + [QUOTE, ':']);
    DeepConcat(Base(lead, e), head, Enc(m.value), e);
    assert MemberText(m, lead) == head + Enc(m.value);
  }

  lemma {:induction false} MembersRun(ms: seq<Member>, lead: char, e: int)
    requires lead == '{' || lead == ','
    requires forall i :: 0 <= i < |ms| ==> Wf(ms[i].value)
    ensures Run(Base(lead, e), Members(ms, lead)) == if ms == [] then Base(lead, e) else Out(e + 1)
    ensures Deep(Base(lead, e), Members(ms, lead), e)
    decreases ms, 2
  {
    hide Run, MemberText;
    if ms == [] {
      RunNothing(Base(lead, e), []);
    } else {
      MemberRun(ms[0], lead, e);
      MembersRun(ms[1..], ',', e);
      DeepConcat(Base(lead, e), MemberText(ms[0], lead), Members(ms[1..], ','), e);
    }
  }
}
