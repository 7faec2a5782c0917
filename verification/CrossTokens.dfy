/**
 For every choice that hides both braces between two neighbours, a token that proves a type of the one with a
 value of the other.
 */
module CrossTokens {
  import opened Json
  import opened Locate
  import opened Circuit
  import opened Soundness
  import opened Completeness
  import opened BuilderProofs
  import opened Splices
  import opened BraceStyles

  // ------------------------------------------------------------------ two neighbours without a brace between them

  /** A text that makes up for k open braces. */
  function Balance(k: int): string
    decreases if k < 0 then -k else k
  {
    if k == 0 then [] else if k > 0 then "}" + Balance(k - 1) else "{" + Balance(k + 1)
  }

  lemma {:induction false} BalanceBraces(k: int)
    ensures AllPlain(Balance(k)) && Braces(Balance(k)) == -k
    decreases if k < 0 then -k else k
  {
    if k > 0 {
      BalanceBraces(k - 1);
      BracesConcat("}", Balance(k - 1));
      assert Braces("}") == -1;
    } else if k < 0 {
      BalanceBraces(k + 1);
      BracesConcat("{", Balance(k + 1));
      assert Braces("{") == 1;
    }
  }

  /** An email account that lists no address. */
  function Former(k: int): Json {
    Obj([Text("z", Balance(k)), Text("x", ",{"), Text("type", TypeName(0))])
  }

  /** An account with an address and no type. */
  function Latter(): Json {
    Obj([Text("w", ""), Text(KeyName(0), "v"), Text("y", "},")])
  }

  lemma ThreeMembers(k1: string, v1: string, k2: string, v2: string, k3: string, v3: string)
    requires AllPlain(k1) && AllPlain(v1) && AllPlain(k2) && AllPlain(v2) && AllPlain(k3) && AllPlain(v3)
    ensures Inner(Obj([Text(k1, v1), Text(k2, v2), Text(k3, v3)]))
            == Quoted(k1, v1) + "," + Quoted(k2, v2) + "," + Quoted(k3, v3)
  {
    hide KeyValue, Stringify, Quoted, Members, AllPlain;
    var ms := [Text(k1, v1), Text(k2, v2), Text(k3, v3)];
    PlainKeyValue(k1, v1);
    PlainKeyValue(k2, v2);
    PlainKeyValue(k3, v3);
    assert ms[1..] == [Text(k2, v2), Text(k3, v3)] && ms[1..][1..] == [Text(k3, v3)] && ms[1..][1..][1..] == [];
    NextMember(ms[1..]);
    NextMember(ms[1..][1..]);
    NextMember(ms[1..][1..][1..]);
  }

  lemma NextMember(ms: seq<Member>)
    ensures Members(ms, ',') == if ms == [] then [] else "," + KeyValue(ms[0]) + Members(ms[1..], ',')
  {
    hide KeyValue;
  }

  lemma FormerInner(k: int)
    ensures Inner(Former(k)) == (("\"z\":\"" + Balance(k)) + "\",\"x\":\",") + "{"
            + ("\"," + Quoted("type", TypeName(0)))
  {
    hide Inner, Balance, Quoted, TypeName;
    BalanceBraces(k);
    TableTypes(0);
    ThreeMembers("z", Balance(k), "x", ",{", "type", TypeName(0));
    FormerWords(Balance(k));
    Around(Quoted("z", Balance(k)) + "," + Quoted("x", ",{"), ("\"z\":\"" + Balance(k)) + "\",\"x\":\",", "{", "\"",
           Quoted("type", TypeName(0)));
  }

  lemma FormerWords(b: string)
    ensures Quoted("z", b) + "," + Quoted("x", ",{") == ("\"z\":\"" + b) + "\",\"x\":\"," + "{" + "\""
    ensures "\"" + "," == "\","
  {
  }

  lemma Around(p: string, x: string, y: string, z: string, q: string)
    requires p == x + y + z
    ensures p + "," + q == x + y + ((z + ",") + q)
  {
  }

  lemma LatterInner()
    ensures Inner(Latter()) == "\"w\":\"\"," + Quoted(KeyName(0), "v") + ",\"y\":\"" + "}" + ",\""
  {
    hide Inner, Quoted, KeyName;
    TableKeys(0);
    ThreeMembers("w", "", KeyName(0), "v", "y", "},");
    LatterWords();
    Along(Quoted("w", "") + ",", Quoted(KeyName(0), "v"), ",", Quoted("y", "},"), ",\"y\":\"", "}", ",\"");
  }

  lemma LatterWords()
    ensures Quoted("w", "") + "," == "\"w\":\"\"," && "," + Quoted("y", "},") == ",\"y\":\"" + "}" + ",\""
  {
  }

  lemma Along(p: string, q: string, c: string, r: string, x: string, y: string, z: string)
    requires c + r == x + y + z
    ensures p + q + c + r == p + q + x + y + z
  {
    assert p + q + c + r == (p + q) + (c + r);
  }

  /** Empty accounts, but for the two at the gap. */
  function CrossAccounts(st: seq<Pair>, g: nat, k: int): (accts: seq<Json>)
    requires g + 1 < |st|
    ensures |accts| == |st| && Objects(accts)
  {
    if g == 0 then [Former(k + Opened(st[0])), Latter()] + Empty(|st| - 2)
    else [Obj([])] + CrossAccounts(st[1..], g - 1, k + Opened(st[0]) - Closed(st[0]))
  }

  function Opened(b: Pair): int {
    if b.opens then 1 else 0
  }

  function Closed(b: Pair): int {
    if b.closes then 1 else 0
  }

  function Empty(n: nat): (accts: seq<Json>)
    ensures |accts| == n && forall i :: 0 <= i < n ==> accts[i] == Obj([])
  {
    if n == 0 then [] else [Obj([])] + Empty(n - 1)
  }

  function CrossBefore(b: Pair, k: int, lead: char): seq<Unit>
    requires Plain(lead)
  {
    [Lit(lead)] + [Brace('{', b.opens)] + Stringify(("\"z\":\"" + Balance(k)) + "\",\"x\":\",")
  }

  function FormerHead(): seq<Unit> {
    Stringify("\",")
  }

  function LatterHead(): seq<Unit> {
    Stringify("\"w\":\"\",")
  }

  function LatterTail(): seq<Unit> {
    Stringify(",\"y\":\"")
  }

  function LatterEnd(b: Pair): seq<Unit> {
    Stringify(",\"") + [Brace('}', b.closes)]
  }

  /** The same array's writing, cut where the circuit is fooled. */
  function CrossSplice(st: seq<Pair>, g: nat, k: int, lead: char): Splice
    requires g + 1 < |st| && Plain(lead)
  {
    if g == 0 then
      Splice(CrossBefore(st[0], k + Opened(st[0]), lead), FormerHead(),
             HiddenShut() + Comma() + HiddenOpen() + LatterHead(),
             LatterTail(), LatterEnd(st[1]) + Writing(Empty(|st| - 2), st[2..], ','))
    else
      var s := CrossSplice(st[1..], g - 1, k + Opened(st[0]) - Closed(st[0]), ',');
      s.(before := EmptyUnits(st[0], lead) + s.before)
  }

  function EmptyUnits(b: Pair, lead: char): seq<Unit>
    requires Plain(lead)
  {
    [Lit(lead)] + AccountUnits(Obj([]), b)
  }

  lemma OneUnit()
    ensures Stringify("{") == Open() && Stringify("}") == Shut()
  {
  }

  lemma FormerUnits(b: Pair, k: int, lead: char)
    requires Plain(lead) && !b.closes
    ensures [Lit(lead)] + AccountUnits(Former(k), b)
            == CrossBefore(b, k, lead) + Open() + FormerHead() + TypeMember() + HiddenShut()
  {
    hide Inner, Stringify, Requoted, Quoted, Balance;
    FormerInner(k);
    var x, q := ("\"z\":\"" + Balance(k)) + "\",\"x\":\",", Quoted("type", TypeName(0));
    StringifyConcat(x + "{", "\"," + q);
    StringifyConcat(x, "{");
    StringifyConcat("\",", q);
    QuotedIsRequoted("type", TypeName(0));
    OneUnit();
  }

  lemma LatterUnits(b: Pair)
    requires !b.opens
    ensures AccountUnits(Latter(), b)
            == HiddenOpen() + LatterHead() + ValueMember() + LatterTail() + Shut() + LatterEnd(b)
  {
    hide Inner, Stringify, Requoted, Quoted;
    LatterInner();
    var p, q := "\"w\":\"\",", Quoted(KeyName(0), "v");
    StringifyConcat(p + q + ",\"y\":\"" + "}", ",\"");
    StringifyConcat(p + q + ",\"y\":\"", "}");
    StringifyConcat(p + q, ",\"y\":\"");
    StringifyConcat(p, q);
    QuotedIsRequoted(KeyName(0), "v");
    OneUnit();
  }

  lemma {:induction false} CrossWriting(st: seq<Pair>, g: nat, k: int, lead: char)
    requires g + 1 < |st| && Plain(lead) && !st[g].closes && !st[g + 1].opens
    ensures Whole(CrossSplice(st, g, k, lead)) == Writing(CrossAccounts(st, g, k), st, lead)
  {
    hide Whole, CrossSplice, Writing, CrossAccounts, Opened, Closed;
    if g == 0 {
      CrossBase(st, k, lead);
    } else {
      var n := k + Opened(st[0]) - Closed(st[0]);
      CrossWriting(st[1..], g - 1, n, ',');
      CrossStep(st, g, k, lead);
    }
  }

  lemma CrossStep(st: seq<Pair>, g: nat, k: int, lead: char)
    requires 1 <= g && g + 1 < |st| && Plain(lead)
    ensures var n := k + Opened(st[0]) - Closed(st[0]);
            var head, s := EmptyUnits(st[0], lead), CrossSplice(st[1..], g - 1, n, ',');
            && Whole(CrossSplice(st, g, k, lead)) == head + Whole(s)
            && Writing(CrossAccounts(st, g, k), st, lead)
              == head + Writing(CrossAccounts(st[1..], g - 1, n), st[1..], ',')
  {
    hide AccountUnits, Whole, Former, Latter, CrossBefore, Empty;
    var n := k + Opened(st[0]) - Closed(st[0]);
    var s, accts := CrossSplice(st[1..], g - 1, n, ','), CrossAccounts(st, g, k);
    assert accts[1..] == CrossAccounts(st[1..], g - 1, n);
    WholePrefixed(s, EmptyUnits(st[0], lead));
  }

  lemma WholePrefixed(s: Splice, head: seq<Unit>)
    ensures Whole(s.(before := head + s.before)) == head + Whole(s)
  {
    hide Open, Shut, TypeMember, ValueMember;
    var t := Open() + Inside(s) + Shut();
    assert (head + s.before) + t + s.after == head + (s.before + t + s.after);
  }

  lemma WritingTwo(x: Json, y: Json, rest: seq<Json>, st: seq<Pair>, lead: char)
    requires x.Obj? && y.Obj? && Objects(rest) && |st| == |rest| + 2 && Plain(lead)
    ensures Objects([x, y] + rest)
    ensures Writing([x, y] + rest, st, lead)
            == ([Lit(lead)] + AccountUnits(x, st[0])) + (Comma() + AccountUnits(y, st[1]) + Writing(rest, st[2..], ','))
  {
    hide AccountUnits;
    var accts := [x, y] + rest;
    assert accts[1..] == [y] + rest && accts[1..][1..] == rest;
    assert st[1..][1..] == st[2..];
  }

  lemma CrossBase(st: seq<Pair>, k: int, lead: char)
    requires 1 < |st| && Plain(lead) && !st[0].closes && !st[1].opens
    ensures Whole(CrossSplice(st, 0, k, lead)) == Writing(CrossAccounts(st, 0, k), st, lead)
  {
    hide AccountUnits, Inside, TypeMember, ValueMember, CrossBefore, Former, Latter, Writing, Brace, Open, Shut, Comma,
      HiddenOpen, HiddenShut, FormerHead, LatterHead, LatterTail, LatterEnd, Empty;
    var n := k + Opened(st[0]);
    AreObjects(n);
    FormerUnits(st[0], n, lead);
    LatterUnits(st[1]);
    var r := Writing(Empty(|st| - 2), st[2..], ',');
    WritingTwo(Former(n), Latter(), Empty(|st| - 2), st, lead);
    CrossInside(st, k, lead);
    Regroup(CrossBefore(st[0], n, lead), FormerHead(), TypeMember(), LatterHead(), ValueMember(), LatterTail(),
            LatterEnd(st[1]), r);
  }

  lemma CrossInside(st: seq<Pair>, k: int, lead: char)
    requires 1 < |st| && Plain(lead)
    ensures Inside(CrossSplice(st, 0, k, lead))
            == FormerHead() + TypeMember() + (HiddenShut() + Comma() + HiddenOpen() + LatterHead()) + ValueMember()
              + LatterTail()
  {
    hide TypeMember, ValueMember, CrossBefore, Writing, Comma, HiddenOpen, HiddenShut, FormerHead, LatterHead,
         LatterTail,
      LatterEnd;
  }

  lemma AreObjects(k: int)
    ensures Former(k).Obj? && Latter().Obj?
  {
  }

  lemma Regroup(c: seq<Unit>, h: seq<Unit>, t: seq<Unit>, p: seq<Unit>, v: seq<Unit>, y: seq<Unit>, z: seq<Unit>,
                r: seq<Unit>)
    ensures c + (Open() + (h + t + (HiddenShut() + Comma() + HiddenOpen() + p) + v + y) + Shut()) + (z + r)
            == (c + Open() + h + t + HiddenShut()) + (Comma() + (HiddenOpen() + p + v + y + Shut() + z) + r)
  {
    hide Open, Shut, Comma, HiddenOpen, HiddenShut;
  }

  // ------------------------------------------------------------------ it passes and it is not sound

  lemma BracesOf(t: seq<Unit>, u: seq<Unit>)
    ensures Braces(Esc(t + u)) == Braces(Esc(t)) + Braces(Esc(u))
  {
    hide Esc, Braces;
    EscConcat(t, u);
    BracesConcat(Esc(t), Esc(u));
  }

  lemma QuietText(s: string)
    requires NoBraces(s)
    ensures NoBraces(Esc(Stringify(s))) && Braces(Esc(Stringify(s))) == 0
  {
    hide Esc, Stringify;
    StringifySays(s);
    EscNoBraces(Stringify(s));
    BracesNone(Esc(Stringify(s)));
  }

  lemma QuietUnit(c: char)
    requires Plain(c) && c != '{' && c != '}'
    ensures Braces(Esc([Lit(c)])) == 0
  {
    EscOne(Lit(c));
    BracesNone([c]);
  }

  /** Just before the false object every brace is made up for. */
  lemma BeforeBalanced(b: Pair, k: int, lead: char)
    requires Plain(lead) && lead != '{' && lead != '}'
    ensures Braces(Esc(CrossBefore(b, k + Opened(b), lead))) == -k && EndsIn(CrossBefore(b, k + Opened(b), lead), ',')
  {
    hide Esc, Braces, Stringify, Balance, Brace;
    var n := k + Opened(b);
    var x, y := "\"z\":\"", "\",\"x\":\",";
    StringifyConcat(x + Balance(n), y);
    StringifyConcat(x, Balance(n));
    QuietText(x);
    QuietText(y);
    BalanceBraces(n);
    JsOfPlain(Balance(n));
    QuietUnit(lead);
    BraceSays('{', b.opens);
    BracesOf(Stringify(x), Stringify(Balance(n)));
    BracesOf(Stringify(x) + Stringify(Balance(n)), Stringify(y));
    BracesOf([Lit(lead)], [Brace('{', b.opens)]);
    BracesOf([Lit(lead)] + [Brace('{', b.opens)], Stringify(x + Balance(n) + y));
  }

  lemma EmptyBraces(b: Pair, lead: char)
    requires Plain(lead) && lead != '{' && lead != '}'
    ensures Braces(Esc(EmptyUnits(b, lead))) == Opened(b) - Closed(b)
  {
    hide Esc, Braces, Brace;
    QuietUnit(lead);
    BraceSays('{', b.opens);
    BraceSays('}', b.closes);
    BracesOf([Lit(lead)], AccountUnits(Obj([]), b));
    BracesOf([Brace('{', b.opens)], [Brace('}', b.closes)]);
    assert AccountUnits(Obj([]), b) == [Brace('{', b.opens)] + [Brace('}', b.closes)];
  }

  lemma GapIsQuiet()
    ensures var gap := HiddenShut() + Comma() + HiddenOpen() + LatterHead();
            NoBraces(Esc(gap)) && EndsIn(gap, ',')
  {
    hide Esc, Stringify;
    QuietText("\"w\":\"\",");
    HiddenText();
    EscConcat(HiddenShut() + Comma() + HiddenOpen(), LatterHead());
    NoBracesConcat(Esc(HiddenShut() + Comma() + HiddenOpen()), Esc(LatterHead()));
  }

  lemma HiddenText()
    ensures Esc(HiddenShut() + Comma() + HiddenOpen()) == "\\u007d,\\u007b"
  {
    EscOne(Hex("007d"));
    EscOne(Hex("007b"));
    EscOne(Lit(','));
    EscConcat(HiddenShut(), Comma());
    EscConcat(HiddenShut() + Comma(), HiddenOpen());
  }

  lemma EndsAreQuiet()
    ensures EndsIn(FormerHead(), ',') && NoBraces(Esc(FormerHead())) && NoBraces(Esc(LatterTail()))
  {
    hide Esc, Stringify;
    QuietText("\",");
    QuietText(",\"y\":\"");
  }

  lemma BeforeStarts(b: Pair, n: int, lead: char)
    requires Plain(lead)
    ensures CrossBefore(b, n, lead) != [] && CrossBefore(b, n, lead)[0] == Lit(lead)
  {
    hide Stringify, Balance, Brace;
  }

  lemma EndStarts(b: Pair)
    ensures LatterEnd(b) != [] && LatterEnd(b)[0] == Lit(',')
  {
    hide Stringify, Brace;
    assert Canon(',') == Lit(',');
  }

  lemma {:induction false} CrossPasses(st: seq<Pair>, g: nat, k: int, lead: char)
    requires g + 1 < |st| && (lead == '[' || lead == ',')
    ensures var s := CrossSplice(st, g, k, lead);
            && s.before != [] && s.before[0] == Lit(lead) && s.after != [] && s.after[0] == Lit(',')
            && EndsIn(s.before, ',') && Braces(Esc(s.before)) == -k
            && EndsIn(s.head, ',') && NoBraces(Esc(s.head)) && EndsIn(s.gap, ',') && NoBraces(Esc(s.gap))
            && NoBraces(Esc(s.tail))
  {
    hide Esc, Braces, NoBraces, Stringify, AccountUnits, CrossBefore, FormerHead, LatterHead, LatterTail, HiddenShut,
      HiddenOpen, Comma;
    if g == 0 {
      BeforeBalanced(st[0], k, lead);
      BeforeStarts(st[0], k + Opened(st[0]), lead);
      EndStarts(st[1]);
      GapIsQuiet();
      EndsAreQuiet();
    } else {
      var s := CrossSplice(st[1..], g - 1, k + Opened(st[0]) - Closed(st[0]), ',');
      CrossPasses(st[1..], g - 1, k + Opened(st[0]) - Closed(st[0]), ',');
      EmptyBraces(st[0], lead);
      BracesOf(EmptyUnits(st[0], lead), s.before);
    }
  }

  /** Not both an email account and one with this address. */
  ghost predicate Neither(acct: Json) {
    && FlatAccount(acct)
    && !(Has(acct, "type", Words(TypeName(0))) && Has(acct, KeyName(0), Words("v")))
  }

  lemma {:induction false} CrossIsNot(st: seq<Pair>, g: nat, k: int)
    requires g + 1 < |st|
    ensures forall i :: 0 <= i < |st| ==> Neither(CrossAccounts(st, g, k)[i])
  {
    hide Neither, Former, Latter, Opened, Closed;
    EmptyIsNot();
    if g == 0 {
      FormerIsNot(k + Opened(st[0]));
      LatterIsNot();
    } else {
      CrossIsNot(st[1..], g - 1, k + Opened(st[0]) - Closed(st[0]));
    }
  }

  lemma EmptyIsNot()
    ensures Neither(Obj([]))
  {
  }

  lemma FormerIsNot(k: int)
    ensures Neither(Former(k))
  {
    hide Content, Stringify, Balance;
    StringifySays("z");
    StringifySays("x");
    StringifySays("type");
    var ms := Former(k).members;
    assert |ms| == 3 && ms[0].key == Stringify("z") && ms[1].key == Stringify("x") && ms[2].key == Stringify("type");
    ThreeKeys(ms);
    assert KeyName(0)[0] == 'a';
  }

  lemma ThreeKeys(ms: seq<Member>)
    requires |ms| == 3 && forall i :: 0 <= i < 3 ==> Content(ms[i].key) != []
    requires Content(ms[0].key)[0] != Content(ms[1].key)[0] && Content(ms[0].key)[0] != Content(ms[2].key)[0]
    requires Content(ms[1].key)[0] != Content(ms[2].key)[0]
    ensures DistinctKeys(ms) && forall m :: m in ms ==> m == ms[0] || m == ms[1] || m == ms[2]
  {
    forall i, j | 0 <= i < j < |ms|
      ensures Content(ms[i].key) != Content(ms[j].key)
    {
      assert (i == 0 && (j == 1 || j == 2)) || (i == 1 && j == 2);
    }
  }

  lemma LatterIsNot()
    ensures Neither(Latter())
  {
    hide Content, Stringify;
    StringifySays("w");
    StringifySays(KeyName(0));
    StringifySays("y");
    var ms := Latter().members;
    assert |ms| == 3 && ms[0].key == Stringify("w") && ms[1].key == Stringify(KeyName(0))
           && ms[2].key == Stringify("y");
    assert KeyName(0)[0] == 'a';
    ThreeKeys(ms);
    assert "type"[0] == 't';
  }
}
