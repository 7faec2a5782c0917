/**
 When accepted offsets prove what they should, and when they do not. The circuit tells accounts apart by
 their braces as bytes, but a string may also write a brace as an escape. So the accounts' braces decide:
 if of every two neighbouring braces of different accounts one is written as itself, every accepted proof
 is sound; if some two neighbours are both escaped, there is a token that proves a type of one account
 with a value of the next.
 */
module BraceTheorems {
  import opened Json
  import opened Scan
  import opened Locate
  import opened Circuit
  import opened Soundness
  import opened Completeness
  import opened BuilderProofs
  import opened Splices
  import opened BraceStyles
  import opened CrossTokens

  /** Between any two neighbours one of the two braces is written as itself. */
  predicate KeptApart(st: seq<Pair>) {
    forall i, j :: 0 <= i < |st| && 0 <= j < |st| && j == i + 1 ==> st[i].closes || st[j].opens
  }

  /** Whatever the accounts say and however everything else is written, only sound offsets are accepted. */
  ghost predicate AlwaysSound(st: seq<Pair>) {
    forall data: string, len: nat, ms, accts, w, off, id: nat, wallet: nat ::
      len <= |data| && Token(data[..len], ms, accts, w) && InStyle(accts, w, st) && Accepts(data, len, off, id, wallet)
      ==> Sound(data, len, ms, accts, off, id, wallet)
  }

  // ------------------------------------------------------------------ the theorem

  function ClosedSplice(st: seq<Pair>, g: nat): Splice
    requires g + 1 < |st|
  {
    var s := CrossSplice(st, g, 0, '[');
    s.(after := s.after + [Lit(']')])
  }

  lemma ClosedPasses(st: seq<Pair>, g: nat)
    requires g + 1 < |st| && !st[g].closes && !st[g + 1].opens
    ensures var t := ClosedSplice(st, g);
            && Passes(t) && Whole(t) == Writing(CrossAccounts(st, g, 0), st, '[') + [Lit(']')]
            && Whole(t) != [] && Whole(t)[0] == Lit('[')
  {
    hide CrossSplice, Writing, CrossAccounts, TypeMember, ValueMember, Esc, Braces, NoBraces, Open, Shut;
    var s, t := CrossSplice(st, g, 0, '['), ClosedSplice(st, g);
    CrossWriting(st, g, 0, '[');
    CrossPasses(st, g, 0, '[');
    assert t.after[0] == s.after[0];
    assert Inside(t) == Inside(s);
    var x := Open() + Inside(s) + Shut();
    assert s.before + x + (s.after + [Lit(']')]) == s.before + x + s.after + [Lit(']')];
    assert Whole(t)[0] == s.before[0];
  }

  lemma NoOneListed(accts: seq<Json>)
    requires forall i :: 0 <= i < |accts| ==> Neither(accts[i])
    ensures (forall i :: 0 <= i < |accts| ==> FlatAccount(accts[i])) && !Listed(accts, 0, "v")
  {
    hide FlatAccount, Has, TypeName, KeyName;
    assert forall i :: 0 <= i < |accts| ==> Neither(accts[i]);
  }

  lemma NotSound(data: string, ms: seq<Member>, accts: seq<Json>, off: Offsets)
    requires Accepts(data, |data|, off, 0, 0) && ValueOf(data, off.account, 0) == "v" && !Listed(accts, 0, "v")
    ensures !Sound(data, |data|, ms, accts, off, 0, 0)
  {
    hide Listed, Accepts, ValueOf;
  }

  /** A style that hides both braces between two neighbours has a token with an accepted, unsound proof. */
  lemma HiddenGapFools(st: seq<Pair>, g: nat)
    returns (data: string, ms: seq<Member>, accts: seq<Json>, w: seq<Unit>, off: Offsets)
    requires g + 1 < |st| && !st[g].closes && !st[g + 1].opens
    ensures Token(data[..|data|], ms, accts, w) && InStyle(accts, w, st) && Accepts(data, |data|, off, 0, 0)
    ensures !Sound(data, |data|, ms, accts, off, 0, 0)
  {
    hide *;
    accts := CrossAccounts(st, g, 0);
    var t := ClosedSplice(st, g);
    w := Whole(t);
    ClosedPasses(st, g);
    CrossIsNot(st, g, 0);
    NoOneListed(accts);
    WritingInStyle(accts, st);
    data, off := SplicedToken(accts, t);
    ms := Claims(w);
    NotSound(data, ms, accts, off);
  }

  lemma StyleSeparates(accts: seq<Json>, w: seq<Unit>, st: seq<Pair>)
    requires InStyle(accts, w, st) && KeptApart(st)
    ensures Separated(accts, w)
  {
    hide Enc, Opening, Closing;
    forall i, j | 0 <= i && j == i + 1 && j < |accts|
      ensures Parted(accts, w, i, j)
    {
      assert Follows(accts, w, i, st[i]) && Follows(accts, w, j, st[j]);
    }
  }

  /**
   Exactly when the circuit is sound: every accepted proof about every token in a style is sound if and only
   if the style leaves, between any two neighbouring accounts, one of the two braces written as itself.
   */
  lemma SoundExactlyWhenKeptApart(st: seq<Pair>)
    ensures AlwaysSound(st) <==> KeptApart(st)
  {
    hide Token, InStyle, Accepts, Sound;
    if KeptApart(st) {
      forall data: string, len: nat, ms, accts, w, off, id: nat, wallet: nat
        | len <= |data| && Token(data[..len], ms, accts, w) && InStyle(accts, w, st)
          && Accepts(data, len, off, id, wallet)
        ensures Sound(data, len, ms, accts, off, id, wallet)
      {
        StyleSeparates(accts, w, st);
        CircuitSound(data, len, ms, accts, w, off, id, wallet);
      }
    } else {
      var g, j :| 0 <= g < |st| && 0 <= j < |st| && j == g + 1 && !st[g].closes && !st[j].opens;
      var data, ms, accts, w, off := HiddenGapFools(st, g);
    }
  }

  // ------------------------------------------------------------------ writers

  /** The array is written with one form for each character, wherever it stands. */
  ghost predicate Uniform(w: seq<Unit>) {
    forall i, j :: 0 <= i < |w| && 0 <= j < |w| && CharOf(w[i]) == CharOf(w[j]) ==> w[i] == w[j]
  }

  /**
   A writer that always writes a character the same way, character by character, leaves no gap: with
   both braces escaped nothing is accepted, and otherwise the accounts are kept apart.
   */
  lemma UniformSound(data: string, len: nat, ms: seq<Member>, accts: seq<Json>, w: seq<Unit>,
                     off: Offsets, id: nat, wallet: nat)
    requires len <= |data| && Token(data[..len], ms, accts, w) && Uniform(w)
    requires Accepts(data, len, off, id, wallet)
    ensures Sound(data, len, ms, accts, off, id, wallet)
  {
    hide Token, Accepts, Sound, Separated;
    UniformSeparated(data, len, ms, accts, w, off, id, wallet);
    CircuitSound(data, len, ms, accts, w, off, id, wallet);
  }

  lemma UniformSeparated(data: string, len: nat, ms: seq<Member>, accts: seq<Json>, w: seq<Unit>,
                         off: Offsets, id: nat, wallet: nat)
    requires len <= |data| && Token(data[..len], ms, accts, w) && Uniform(w)
    requires Accepts(data, len, off, id, wallet)
    ensures |w| == |Enc(Arr(accts))| && Separated(accts, w)
  {
    hide At, Enc, Esc, AccountOk, Wf, Boundary, Content, Opening, Closing, Digits;
    var la, a := off.laIdx + |LINKED_ACCOUNTS_KEY|, off.account;
    TokenParts(data[..len], ms, accts, w);
    PastTheEnd(data[..len], off.laIdx);
    ArrayFound(data, len, ms, accts, w, off.laIdx);
    OpeningStands(data, len, la, w, a, id);
    var q :| 0 <= q < |w| && w[q] == Lit('{');
    forall i, j | 0 <= i && j == i + 1 && j < |accts|
      ensures Parted(accts, w, i, j)
    {
      BracesStand(accts, j);
    }
  }

  /** An accepted account starts at a brace of the array that is written as itself. */
  lemma OpeningStands(data: string, len: nat, la: nat, w: seq<Unit>, a: AccountRef, id: nat)
    requires ArrayAt(data, len, la, w) && AccountOk(data, len, la, a, id)
    ensures exists q :: 0 <= q < |w| && w[q] == Lit('{')
  {
    hide At, Esc, RangeOk, TypeOk, ValueOk;
    ObjectInside(data, len, la, w, a);
    var x := a.start - la;
    assert Esc(w)[x] == data[la..la + |Esc(w)|][x];
    StructuralAt(w, x);
  }

  // ------------------------------------------------------------------ one such token

  function First(): Json {
    Obj([Text("type", TypeName(0)), Text("x", "y")])
  }

  function Second(): Json {
    Obj([Text("type", TypeName(1)), Text(KeyName(0), "v")])
  }

  function FirstTail(): seq<Unit> {
    Stringify("," + Quoted("x", "y"))
  }

  function SecondHead(): seq<Unit> {
    Stringify(Quoted("type", TypeName(1)) + ",")
  }

  /** [{"type":"email","x":"y"},{"type":"phone","address":"v"}] with the two inner braces escaped. */
  function TwoAccounts(): Splice {
    Splice([Lit('[')], [], FirstTail() + HiddenShut() + Comma() + HiddenOpen() + SecondHead(), [], [Lit(']')])
  }

  lemma TwoMembers(k1: string, v1: string, k2: string, v2: string)
    requires AllPlain(k1) && AllPlain(v1) && AllPlain(k2) && AllPlain(v2)
    ensures Inner(Obj([Text(k1, v1), Text(k2, v2)])) == Quoted(k1, v1) + "," + Quoted(k2, v2)
  {
    hide KeyValue, Stringify, Quoted, Members, AllPlain;
    var ms := [Text(k1, v1), Text(k2, v2)];
    PlainKeyValue(k1, v1);
    PlainKeyValue(k2, v2);
    assert ms[1..] == [Text(k2, v2)] && ms[1..][1..] == [];
    NextMember(ms[1..]);
    NextMember(ms[1..][1..]);
  }

  lemma FirstUnits()
    ensures AccountUnits(First(), Pair(true, false)) == Open() + TypeMember() + FirstTail() + HiddenShut()
  {
    hide Stringify, Quoted, Requoted, Inner;
    TwoMembers("type", TypeName(0), "x", "y");
    var p, q := Quoted("type", TypeName(0)), "," + Quoted("x", "y");
    StringifyConcat(p, q);
    assert p + "," + Quoted("x", "y") == p + q;
    QuotedIsRequoted("type", TypeName(0));
  }

  lemma SecondUnits()
    ensures AccountUnits(Second(), Pair(false, true)) == HiddenOpen() + SecondHead() + ValueMember() + Shut()
  {
    hide Stringify, Quoted, Requoted, Inner;
    TwoMembers("type", TypeName(1), KeyName(0), "v");
    StringifyConcat(Quoted("type", TypeName(1)) + ",", Quoted(KeyName(0), "v"));
    QuotedIsRequoted(KeyName(0), "v");
  }

  lemma TwoAccountsText()
    ensures Content(Whole(TwoAccounts())) == Enc(Arr([First(), Second()]))
  {
    hide *;
    TwoAreObjects();
    WritingInStyle([First(), Second()], [Pair(true, false), Pair(false, true)]);
    TwoAccountsWhole();
    TwoAccountsWriting();
  }

  lemma TwoAreObjects()
    ensures First().Obj? && Second().Obj? && Objects([First(), Second()])
  {
    hide Text, Stringify, TypeName, KeyName;
  }

  lemma TwoAccountsWhole()
    ensures Whole(TwoAccounts())
            == [Lit('[')] + (Open() + TypeMember() + FirstTail() + HiddenShut())
               + (Comma() + (HiddenOpen() + SecondHead() + ValueMember() + Shut())) + [Lit(']')]
  {
    hide TypeMember, ValueMember, Open, Shut, Comma, HiddenOpen, HiddenShut, FirstTail, SecondHead;
    Redistribute([Lit('[')], TypeMember(), FirstTail(), SecondHead(), ValueMember(), [Lit(']')]);
  }

  lemma Redistribute(b: seq<Unit>, t: seq<Unit>, x: seq<Unit>, y: seq<Unit>, v: seq<Unit>, e: seq<Unit>)
    ensures b + (Open() + ([] + t + (x + HiddenShut() + Comma() + HiddenOpen() + y) + v + []) + Shut()) + e
            == b + (Open() + t + x + HiddenShut()) + (Comma() + (HiddenOpen() + y + v + Shut())) + e
  {
    hide Open, Shut, Comma, HiddenOpen, HiddenShut;
    assert [] + t + (x + HiddenShut() + Comma() + HiddenOpen() + y) + v + []
           == t + x + HiddenShut() + Comma() + HiddenOpen() + y + v;
  }

  lemma TwoAccountsWriting()
    requires Objects([First(), Second()])
    ensures Writing([First(), Second()], [Pair(true, false), Pair(false, true)], '[')
            == [Lit('[')] + (Open() + TypeMember() + FirstTail() + HiddenShut())
               + (Comma() + (HiddenOpen() + SecondHead() + ValueMember() + Shut()))
  {
    hide AccountUnits, TypeMember, ValueMember, Open, Shut, Comma, HiddenOpen, HiddenShut, FirstTail, SecondHead,
      First, Second;
    var st := [Pair(true, false), Pair(false, true)];
    FirstUnits();
    SecondUnits();
    assert [First(), Second()] + [] == [First(), Second()] && st[2..] == [];
    assert First().Obj? && Second().Obj? by {
      TwoAreObjects();
    }
    WritingTwo(First(), Second(), [], st, '[');
  }

  lemma TwoAccountsPass()
    ensures Passes(TwoAccounts()) && Whole(TwoAccounts()) != [] && Whole(TwoAccounts())[0] == Lit('[')
  {
    hide Esc, Stringify, NoBraces, Open, Shut, Inside, Braces;
    var s := TwoAccounts();
    QuietUnit('[');
    EscNothing();
    TwoTexts();
    var x, y := FirstTail(), SecondHead();
    QuietText("," + Quoted("x", "y"));
    QuietText(Quoted("type", TypeName(1)) + ",");
    HiddenText();
    var m := HiddenShut() + Comma() + HiddenOpen();
    EscConcat(x, m);
    EscConcat(x + m, y);
    NoBracesConcat(Esc(x), Esc(m));
    NoBracesConcat(Esc(x) + Esc(m), Esc(y));
    assert s.gap == x + m + y;
  }

  lemma TwoTexts()
    ensures NoBraces("," + Quoted("x", "y")) && NoBraces(Quoted("type", TypeName(1)) + ",") && NoBraces([])
    ensures NoBraces("\\u007d,\\u007b") && EndsIn(SecondHead(), ',')
  {
    hide Stringify, Quoted;
    var q := Quoted("type", TypeName(1));
    QuotedQuiet("x", "y");
    QuotedQuiet("type", TypeName(1));
    assert (q + ",")[|q|] == ',';
  }

  lemma QuotedQuiet(key: string, value: string)
    requires NoBraces(key) && NoBraces(value)
    ensures NoBraces(Quoted(key, value))
  {
  }

  lemma TwoAccountsAreNot()
    ensures Neither(First()) && Neither(Second())
  {
    hide Content, Stringify;
    StringifySays("type");
    StringifySays("x");
    StringifySays(KeyName(0));
    StringifySays(TypeName(1));
    var k := [First().members[0].key, First().members[1].key, Second().members[1].key];
    assert Content(k[0])[0] == 't' && Content(k[1])[0] == 'x' && Content(k[2])[0] == 'a';
    assert TypeName(1)[0] != TypeName(0)[0];
    assert First().members[1].key == Stringify("x") && Second().members[0] == Text("type", TypeName(1));
    assert Second().members[0] in Second().members;
  }

  /**
   The smallest case: of two accounts, an email without an address and a phone with one, the circuit accepts
   the email v, which no account lists.
   */
  lemma TwoAccountsFool() returns (data: string, off: Offsets)
    ensures Token(data[..|data|], Claims(Whole(TwoAccounts())), [First(), Second()], Whole(TwoAccounts()))
    ensures Accepts(data, |data|, off, 0, 0) && ValueOf(data, off.account, 0) == "v"
    ensures !Listed([First(), Second()], 0, "v")
  {
    hide *;
    TwoAccountsText();
    TwoAccountsPass();
    TwoAccountsAreNot();
    NoOneListed([First(), Second()]);
    data, off := SplicedToken([First(), Second()], TwoAccounts());
  }
}
