/**
 Which of the accounts' braces are written as themselves, and writing an array of accounts with just those.
 */
module BraceStyles {
  import opened Json
  import opened Locate
  import opened Circuit
  import opened Soundness
  import opened Completeness

  /** Whether an account's opening and closing brace are written as themselves. */
  datatype Pair = Pair(opens: bool, closes: bool)

  ghost predicate InStyle(accts: seq<Json>, w: seq<Unit>, st: seq<Pair>) {
    |accts| == |st| && |w| == |Enc(Arr(accts))| && forall i :: 0 <= i < |st| ==> Follows(accts, w, i, st[i])
  }

  ghost predicate Follows(accts: seq<Json>, w: seq<Unit>, i: nat, b: Pair)
    requires i < |accts|
  {
    && Opening(accts, i) < |w| && (w[Opening(accts, i)] == Lit('{') <==> b.opens)
    && 0 <= Closing(accts, i) < |w| && (w[Closing(accts, i)] == Lit('}') <==> b.closes)
  }

  // ------------------------------------------------------------------ writing accounts in a style

  function Brace(c: char, itself: bool): Unit
    requires c == '{' || c == '}'
  {
    if itself then Lit(c) else if c == '{' then Hex("007b") else Hex("007d")
  }

  lemma BraceSays(c: char, itself: bool)
    requires c == '{' || c == '}'
    ensures CharOf(Brace(c, itself)) == c && (Brace(c, itself) == Lit(c) <==> itself)
    ensures Braces(Esc([Brace(c, itself)])) == if !itself then 0 else if c == '{' then 1 else -1
  {
    EscOne(Brace(c, itself));
    var t := UnitText(Brace(c, itself));
    if itself {
      assert t[..0] == [];
    } else {
      BracesNone(t);
    }
  }

  /** What stands between an object's braces. */
  function Inner(acct: Json): string
    requires acct.Obj?
  {
    if acct.members == [] then [] else KeyValue(acct.members[0]) + Members(acct.members[1..], ',')
  }

  lemma InnerText(acct: Json)
    requires acct.Obj?
    ensures Enc(acct) == "{" + Inner(acct) + "}"
  {
    hide KeyValue;
    if acct.members != [] {
      assert Members(acct.members, '{') == "{" + Inner(acct);
    }
  }

  function AccountUnits(acct: Json, b: Pair): seq<Unit>
    requires acct.Obj?
  {
    [Brace('{', b.opens)] + Stringify(Inner(acct)) + [Brace('}', b.closes)]
  }

  predicate Objects(accts: seq<Json>) {
    forall i :: 0 <= i < |accts| ==> accts[i].Obj?
  }

  function Writing(accts: seq<Json>, st: seq<Pair>, lead: char): seq<Unit>
    requires |accts| == |st| && Objects(accts) && Plain(lead)
  {
    if accts == [] then [] else [Lit(lead)] + AccountUnits(accts[0], st[0]) + Writing(accts[1..], st[1..], ',')
  }

  lemma ContentConcat(s: seq<Unit>, t: seq<Unit>)
    ensures Content(s + t) == Content(s) + Content(t)
  {
    hide Content;
    var x, y := Content(s + t), Content(s) + Content(t);
    assert |x| == |y| && forall i :: 0 <= i < |x| ==> x[i] == CharOf((s + t)[i]) == y[i];
  }

  lemma AccountUnitsSay(acct: Json, b: Pair)
    requires acct.Obj?
    ensures var u := AccountUnits(acct, b);
            && Content(u) == Enc(acct) && |u| == |Enc(acct)| >= 2
            && u[0] == Brace('{', b.opens) && u[|u| - 1] == Brace('}', b.closes)
  {
    hide Content, Stringify, Inner, Brace, Enc;
    InnerText(acct);
    BraceSays('{', b.opens);
    BraceSays('}', b.closes);
    StringifySays(Inner(acct));
    var u := AccountUnits(acct, b);
    assert |Content(u)| == |u| == |Enc(acct)|;
    assert forall i :: 0 <= i < |u| ==> Content(u)[i] == Enc(acct)[i];
  }

  lemma {:induction false} WritingSays(accts: seq<Json>, st: seq<Pair>, lead: char)
    requires |accts| == |st| && Objects(accts) && Plain(lead)
    ensures Content(Writing(accts, st, lead)) == Items(accts, lead)
  {
    hide AccountUnits, Enc, Content;
    if accts == [] {
    } else {
      var u, rest := AccountUnits(accts[0], st[0]), Writing(accts[1..], st[1..], ',');
      AccountUnitsSay(accts[0], st[0]);
      WritingSays(accts[1..], st[1..], ',');
      ThreeParts(lead, u, rest);
    }
  }

  lemma ThreeParts(lead: char, u: seq<Unit>, rest: seq<Unit>)
    requires Plain(lead)
    ensures Content([Lit(lead)] + u + rest) == [lead] + Content(u) + Content(rest)
  {
    hide Content;
    ContentConcat([Lit(lead)], u);
    ContentConcat([Lit(lead)] + u, rest);
    assert Content([Lit(lead)]) == [lead];
  }

  lemma {:induction false} WritingFollows(accts: seq<Json>, st: seq<Pair>, lead: char, i: nat)
    requires |accts| == |st| && Objects(accts) && Plain(lead) && i < |accts|
    ensures var w, o := Writing(accts, st, lead), ItemStart(accts, i);
            && o + |Enc(accts[i])| <= |w| && |Enc(accts[i])| >= 2
            && w[o] == Brace('{', st[i].opens) && w[o + |Enc(accts[i])| - 1] == Brace('}', st[i].closes)
  {
    hide AccountUnits, Enc, Brace;
    var w, u, rest := Writing(accts, st, lead), AccountUnits(accts[0], st[0]), Writing(accts[1..], st[1..], ',');
    AccountUnitsSay(accts[0], st[0]);
    if i > 0 {
      WritingFollows(accts[1..], st[1..], ',', i - 1);
      var x := ItemStart(accts[1..], i - 1);
      assert w[1 + |u| + x] == rest[x];
      assert w[1 + |u| + (x + |Enc(accts[i])| - 1)] == rest[x + |Enc(accts[i])| - 1];
    }
  }

  /** So the array is written in the style it was asked for. */
  lemma WritingInStyle(accts: seq<Json>, st: seq<Pair>)
    requires |accts| == |st| && accts != [] && Objects(accts)
    ensures var w := Writing(accts, st, '[') + [Lit(']')];
            Content(w) == Enc(Arr(accts)) && InStyle(accts, w, st)
  {
    hide Enc, Writing, Items, Follows, Content;
    var v := Writing(accts, st, '[');
    WritingSays(accts, st, '[');
    ContentConcat(v, [Lit(']')]);
    assert Content([Lit(']')]) == "]";
    ArrayIs(accts);
    forall i | 0 <= i < |st|
      ensures Follows(accts, v + [Lit(']')], i, st[i])
    {
      WritingFollows(accts, st, '[', i);
      FollowsFrom(accts, v, i, st[i]);
    }
  }

  lemma FollowsFrom(accts: seq<Json>, v: seq<Unit>, i: nat, b: Pair)
    requires i < |accts|
    requires var o := ItemStart(accts, i);
             && o + |Enc(accts[i])| <= |v| && |Enc(accts[i])| >= 2
             && v[o] == Brace('{', b.opens) && v[o + |Enc(accts[i])| - 1] == Brace('}', b.closes)
    ensures Follows(accts, v + [Lit(']')], i, b)
  {
    hide Enc, ItemStart, Brace;
    BraceSays('{', b.opens);
    BraceSays('}', b.closes);
  }

  lemma ArrayIs(accts: seq<Json>)
    requires accts != []
    ensures Enc(Arr(accts)) == Items(accts, '[') + "]"
  {
  }
}
