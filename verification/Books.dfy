/**
 The deposit bookkeeping of P2IDVault: records, per-bucket id lists with a cursor, the totals at three
 levels, accrued fees, and the emitted events as the ledger of what was credited and what left.
 Totals are plain integers: the invariant ties each to a sum of natural numbers, so the checked
 subtractions of the contract cannot underflow in any state that satisfies it.
 */
module Books {
  import opened Types

  const MAX_FEE_BPS: nat := 100
  const BPS: nat := 10000
  const MAX_SWEEP_PAGE: nat := 100

  datatype Deposit = Deposit(
    funder: Address, fundedAt: nat, consumed: bool, token: Address, window: nat,
    verifier: Address, feeBps: nat, amount: nat, constraint: Word)

  /** A bucket is named by verifier, constraint and token; constraint 0 is the default bucket. */
  datatype Bucket = Bucket(verifier: Address, constraint: Word, token: Address)

  datatype Event =
    | Funded(id: nat, funder: Address, token: Address, amount: nat)
    | Refunded(id: nat, to: Address, token: Address, amount: nat)
    | Claimed(id: nat, to: Address, token: Address, amount: nat, fee: nat)
    | FeeAccrued(verifier: Address, token: Address, fee: nat)
    | FeesDistributed(verifier: Address, token: Address, amount: nat)

  datatype Books = Books(
    deposits: seq<Deposit>, bucketTotal: map<Bucket, int>, tracked: map<Address, int>,
    ids: map<Bucket, seq<nat>>, cursor: map<Bucket, int>, uses: map<(Word, Address), int>,
    feesOwed: map<(Address, Address), int>, feesTotal: map<Address, int>, log: seq<Event>)

  const NO_BOOKS := Books([], map[], map[], map[], map[], map[], map[], map[], [])

  function BucketOf(d: Deposit): Bucket {
    Bucket(d.verifier, d.constraint, d.token)
  }

  function IdList(k: Books, b: Bucket): seq<nat> {
    if b in k.ids then k.ids[b] else []
  }

  /** The fee of a claim, at the rate fixed when the deposit was made. */
  function ClaimFee(d: Deposit): nat {
    d.amount * d.feeBps / BPS
  }

  // ------------------------------------------------------------------ operations

  function Consume(k: Books, id: nat): Books
    requires id < |k.deposits|
  {
    var d := k.deposits[id];
    k.(deposits := k.deposits[id := d.(consumed := true)],
       bucketTotal := k.bucketTotal[BucketOf(d) := Get(k.bucketTotal, BucketOf(d)) - d.amount],
       tracked := k.tracked[d.token := Get(k.tracked, d.token) - d.amount])
  }

  function Claim(k: Books, id: nat, to: Address): Books
    requires id < |k.deposits|
  {
    var d := k.deposits[id];
    Consume(k, id).(log := k.log + [Claimed(id, to, d.token, d.amount, ClaimFee(d))])
  }

  function Refund(k: Books, id: nat): Books
    requires id < |k.deposits|
  {
    var d := k.deposits[id];
    Consume(k, id).(log := k.log + [Refunded(id, d.funder, d.token, d.amount)])
  }

  /** Push a funded deposit and index it. */
  function Record(k: Books, d: Deposit): Books {
    var b, id := BucketOf(d), |k.deposits|;
    k.(deposits := k.deposits + [d],
       uses := if d.constraint != 0 then k.uses[(d.constraint, d.funder) := id + 1] else k.uses,
       ids := k.ids[b := IdList(k, b) + [id]],
       bucketTotal := k.bucketTotal[b := Get(k.bucketTotal, b) + d.amount],
       tracked := k.tracked[d.token := Get(k.tracked, d.token) + d.amount],
       log := k.log + [Funded(id, d.funder, d.token, d.amount)])
  }

  function Accrue(k: Books, verifier: Address, token: Address, fee: nat): Books {
    if fee == 0 then k
    else
      k.(feesOwed := k.feesOwed[(verifier, token) := Get(k.feesOwed, (verifier, token)) + fee],
         feesTotal := k.feesTotal[token := Get(k.feesTotal, token) + fee],
         log := k.log + [FeeAccrued(verifier, token, fee)])
  }

  function Distribute(k: Books, verifier: Address, token: Address, amount: nat): Books {
    k.(feesOwed := k.feesOwed[(verifier, token) := Get(k.feesOwed, (verifier, token)) - amount],
       feesTotal := k.feesTotal[token := Get(k.feesTotal, token) - amount],
       log := k.log + [FeesDistributed(verifier, token, amount)])
  }

  /** What consuming a stretch of deposits yields. */
  datatype Swept = Swept(k: Books, gross: nat, fee: nat, count: nat)

  function ClaimInto(w: Swept, id: nat, to: Address): Swept
    requires id < |w.k.deposits|
  {
    var d := w.k.deposits[id];
    Swept(Claim(w.k, id, to), w.gross + d.amount, w.fee + ClaimFee(d), w.count + 1)
  }

  /** Claim the unconsumed deposits among list[from..end], in order. */
  function Walk(k: Books, list: seq<nat>, from: nat, end: nat, to: Address): Swept
    requires end <= |list|
    decreases end
  {
    if end <= from then Swept(k, 0, 0, 0)
    else
      var w := Walk(k, list, from, end - 1, to);
      var id := list[end - 1];
      if id < |w.k.deposits| && !w.k.deposits[id].consumed then ClaimInto(w, id, to) else w
  }

  function Page(limit: nat): nat {
    if limit == 0 || limit > MAX_SWEEP_PAGE then MAX_SWEEP_PAGE else limit
  }

  function PageEnd(length: nat, cursor: nat, limit: nat): nat {
    if length > cursor + Page(limit) then cursor + Page(limit) else length
  }

  function Cursor(k: Books, b: Bucket): nat {
    if b in k.cursor && k.cursor[b] >= 0 then k.cursor[b] else 0
  }

  /** One page of a bucket from its cursor. */
  function FromCursor(k: Books, b: Bucket, limit: nat, to: Address): Swept {
    var list, i := IdList(k, b), Cursor(k, b);
    var end := PageEnd(|list|, i, limit);
    var w := Walk(k, list, i, end, to);
    w.(k := w.k.(cursor := w.k.cursor[b := end]))
  }

  /** Claim the first n of the listed ids; None when one is unknown, of another bucket, or consumed. */
  function ByIds(k: Books, b: Bucket, list: seq<nat>, n: nat, to: Address): Option<Swept>
    requires n <= |list|
  {
    if n == 0 then Some(Swept(k, 0, 0, 0))
    else
      match ByIds(k, b, list, n - 1, to)
      case None => None
      case Some(w) =>
        var id := list[n - 1];
        if id >= |w.k.deposits| || BucketOf(w.k.deposits[id]) != b || w.k.deposits[id].consumed then None
        else Some(ClaimInto(w, id, to))
  }

  // ------------------------------------------------------------------ what the totals mean

  /** Selects the deposits a total speaks about. */
  datatype Sel = OfToken(t: Address) | OfBucket(b: Bucket)

  predicate Selects(s: Sel, d: Deposit) {
    match s
    case OfToken(t) => d.token == t
    case OfBucket(b) => BucketOf(d) == b
  }

  function Weight(s: Sel, d: Deposit): nat {
    if Selects(s, d) && !d.consumed then d.amount else 0
  }

  /** The sum of the selected unconsumed deposits. */
  function Total(ds: seq<Deposit>, s: Sel): nat {
    if ds == [] then 0 else Total(ds[..|ds| - 1], s) + Weight(s, ds[|ds| - 1])
  }

  /** The ids of a bucket's deposits in funding order. */
  function Ids(ds: seq<Deposit>, b: Bucket): seq<nat> {
    if ds == [] then []
    else
      var n := |ds| - 1;
      Ids(ds[..n], b) + (if BucketOf(ds[n]) == b then [n] else [])
  }

  /** The fees owed in a token, summed over verifiers. */
  ghost function FeeSum(m: map<(Address, Address), int>, t: Address): int
    decreases |m|
  {
    if m == map[] then 0
    else
      var p :| p in m;
      FeeSum(m - {p}, t) + (if p.1 == t then m[p] else 0)
  }

  /** The flows a token's ledger distinguishes. */
  datatype Kind = Credits | Refunds | Claims | ClaimFees | FeesIn | FeesOut

  function Amount(e: Event, t: Address, kind: Kind): nat {
    match e
    case Funded(_, _, token, amount) => if token == t && kind == Credits then amount else 0
    case Refunded(_, _, token, amount) => if token == t && kind == Refunds then amount else 0
    case Claimed(_, _, token, amount, fee) =>
      if token != t then 0 else if kind == Claims then amount else if kind == ClaimFees then fee else 0
    case FeeAccrued(_, token, fee) => if token == t && kind == FeesIn then fee else 0
    case FeesDistributed(_, token, amount) => if token == t && kind == FeesOut then amount else 0
  }

  function Flow(log: seq<Event>, t: Address, kind: Kind): nat {
    if log == [] then 0 else Flow(log[..|log| - 1], t, kind) + Amount(log[|log| - 1], t, kind)
  }

  predicate Settles(e: Event, id: nat) {
    (e.Refunded? || e.Claimed?) && e.id == id
  }

  /** How often a deposit left the vault. */
  function Exits(log: seq<Event>, id: nat): nat {
    if log == [] then 0
    else Exits(log[..|log| - 1], id) + (if Settles(log[|log| - 1], id) then 1 else 0)
  }

  /** A settlement names the recorded deposit: a refund is whole, fee-free and goes to the funder. */
  predicate Honest(ds: seq<Deposit>, e: Event) {
    match e
    case Refunded(id, to, token, amount) =>
      id < |ds| && to == ds[id].funder && token == ds[id].token && amount == ds[id].amount
    case Claimed(id, _, token, amount, fee) =>
      id < |ds| && token == ds[id].token && amount == ds[id].amount && fee == ClaimFee(ds[id])
    case _ => true
  }

  // ------------------------------------------------------------------ the invariant

  ghost predicate Totals(k: Books) {
    && (forall t :: Get(k.tracked, t) == Total(k.deposits, OfToken(t)))
    && (forall b :: Get(k.bucketTotal, b) == Total(k.deposits, OfBucket(b)))
    && (forall t :: Get(k.feesTotal, t) == FeeSum(k.feesOwed, t))
    && (forall p :: Get(k.feesOwed, p) >= 0)
  }

  /** The first n listed deposits are consumed. */
  ghost predicate AllConsumed(ds: seq<Deposit>, list: seq<nat>, n: int) {
    forall i :: 0 <= i < n && i < |list| && list[i] < |ds| ==> ds[list[i]].consumed
  }

  ghost predicate Indexed(k: Books) {
    && (forall b :: IdList(k, b) == Ids(k.deposits, b))
    && (forall b :: 0 <= Get(k.cursor, b) <= |IdList(k, b)|)
    && (forall b :: AllConsumed(k.deposits, IdList(k, b), Get(k.cursor, b)))
  }

  /** Deposit i used this constraint, for this funder. */
  predicate UsedBy(ds: seq<Deposit>, i: int, q: (Word, Address)) {
    0 <= i < |ds| && ds[i].constraint == q.0 != 0 && ds[i].funder == q.1
  }

  ghost predicate Recorded(k: Books) {
    && (forall i :: 0 <= i < |k.deposits| ==>
          k.deposits[i].feeBps <= MAX_FEE_BPS && 0 < k.deposits[i].amount <= MAX_U128)
    && (forall i :: 0 <= i < |k.deposits| && k.deposits[i].constraint != 0
                    ==> Get(k.uses, (k.deposits[i].constraint, k.deposits[i].funder)) == i + 1)
    && (forall q :: Get(k.uses, q) != 0 ==> UsedBy(k.deposits, Get(k.uses, q) - 1, q))
  }

  ghost predicate Ledger(k: Books) {
    && (forall t :: Flow(k.log, t, Credits)
                    == Flow(k.log, t, Refunds) + Flow(k.log, t, Claims) + Get(k.tracked, t))
    && (forall t :: Flow(k.log, t, FeesIn) == Flow(k.log, t, FeesOut) + Get(k.feesTotal, t))
    && (forall id: nat :: Exits(k.log, id) == if id < |k.deposits| && k.deposits[id].consumed then 1 else 0)
    && (forall i :: 0 <= i < |k.log| ==> Honest(k.deposits, k.log[i]))
  }

  ghost predicate BooksInv(k: Books) {
    Totals(k) && Indexed(k) && Recorded(k) && Ledger(k)
  }

  lemma EmptyInv()
    ensures BooksInv(NO_BOOKS)
  {
  }

  // ------------------------------------------------------------------ facts about the summaries

  lemma {:induction false} TotalConsumed(ds: seq<Deposit>, id: nat, s: Sel)
    requires id < |ds|
    ensures Total(ds, s) == Total(ds[id := ds[id].(consumed := true)], s) + Weight(s, ds[id])
  {
    var ds' := ds[id := ds[id].(consumed := true)];
    var n := |ds| - 1;
    if id == n {
      assert ds'[..n] == ds[..n];
    } else {
      TotalConsumed(ds[..n], id, s);
      assert ds'[..n] == ds[..n][id := ds[id].(consumed := true)];
    }
  }

  lemma TotalPushed(ds: seq<Deposit>, d: Deposit, s: Sel)
    ensures Total(ds + [d], s) == Total(ds, s) + Weight(s, d)
  {
    assert (ds + [d])[..|ds|] == ds;
  }

  lemma {:induction false} IdsConsumed(ds: seq<Deposit>, id: nat, b: Bucket)
    requires id < |ds|
    ensures Ids(ds[id := ds[id].(consumed := true)], b) == Ids(ds, b)
  {
    var ds' := ds[id := ds[id].(consumed := true)];
    var n := |ds| - 1;
    if id == n {
      assert ds'[..n] == ds[..n];
    } else {
      IdsConsumed(ds[..n], id, b);
      assert ds'[..n] == ds[..n][id := ds[id].(consumed := true)];
    }
  }

  lemma IdsPushed(ds: seq<Deposit>, d: Deposit, b: Bucket)
    ensures Ids(ds + [d], b) == Ids(ds, b) + (if BucketOf(d) == b then [|ds|] else [])
  {
    assert (ds + [d])[..|ds|] == ds;
  }

  /** A bucket's list is exactly the ids of its deposits, in the order they were funded. */
  lemma {:induction false} IdsExact(ds: seq<Deposit>, b: Bucket)
    ensures forall i :: i in Ids(ds, b) <==> 0 <= i < |ds| && BucketOf(ds[i]) == b
    ensures forall i, j :: 0 <= i < j < |Ids(ds, b)| ==> Ids(ds, b)[i] < Ids(ds, b)[j]
  {
    if ds != [] {
      var n := |ds| - 1;
      var prior := Ids(ds[..n], b);
      IdsExact(ds[..n], b);
      assert forall i :: 0 <= i < n ==> ds[..n][i] == ds[i];
      forall i | 0 <= i < |prior|
        ensures prior[i] < n
      {
        assert prior[i] in prior;
      }
    }
  }

  /** Any key can be split off the fee sum. */
  lemma {:induction false} FeeSumSplit(m: map<(Address, Address), int>, t: Address, p: (Address, Address))
    requires p in m
    ensures FeeSum(m, t) == FeeSum(m - {p}, t) + (if p.1 == t then m[p] else 0)
    decreases |m|
  {
    var c :| c in m && FeeSum(m, t) == FeeSum(m - {c}, t) + (if c.1 == t then m[c] else 0);
    if c != p {
      FeeSumSplit(m - {c}, t, p);
      FeeSumSplit(m - {p}, t, c);
      assert m - {c} - {p} == m - {p} - {c};
    }
  }

  lemma FeeSumUpdate(m: map<(Address, Address), int>, t: Address, p: (Address, Address), x: int)
    ensures FeeSum(m[p := x], t) == FeeSum(m, t) + (if p.1 == t then x - Get(m, p) else 0)
  {
    var m' := m[p := x];
    FeeSumSplit(m', t, p);
    assert m' - {p} == m - {p};
    if p in m {
      FeeSumSplit(m, t, p);
    } else {
      assert m - {p} == m;
    }
  }

  lemma {:induction false} FeeSumBounds(m: map<(Address, Address), int>, t: Address, p: (Address, Address))
    requires forall q :: Get(m, q) >= 0
    requires p.1 == t
    ensures 0 <= Get(m, p) <= FeeSum(m, t)
    decreases |m|
  {
    if m != map[] {
      var c :| c in m && FeeSum(m, t) == FeeSum(m - {c}, t) + (if c.1 == t then m[c] else 0);
      assert m[c] == Get(m, c);
      forall q
        ensures Get(m - {c}, q) >= 0
      {
        assert Get(m, q) >= 0;
      }
      FeeSumBounds(m - {c}, t, p);
      assert Get(m, p) == if p == c then m[c] else Get(m - {c}, p);
    }
  }

  lemma FlowPushed(log: seq<Event>, e: Event, t: Address, kind: Kind)
    ensures Flow(log + [e], t, kind) == Flow(log, t, kind) + Amount(e, t, kind)
  {
    assert (log + [e])[..|log|] == log;
  }

  lemma ExitsPushed(log: seq<Event>, e: Event, id: nat)
    ensures Exits(log + [e], id) == Exits(log, id) + (if Settles(e, id) then 1 else 0)
  {
    assert (log + [e])[..|log|] == log;
  }

  // ------------------------------------------------------------------ each operation keeps the invariant

  lemma ConsumeKeepsTotals(k: Books, id: nat)
    requires Totals(k) && id < |k.deposits| && !k.deposits[id].consumed
    ensures Totals(Consume(k, id))
  {
    var k' := Consume(k, id);
    forall t
      ensures Get(k'.tracked, t) == Total(k'.deposits, OfToken(t))
    {
      TotalConsumed(k.deposits, id, OfToken(t));
      assert Get(k.tracked, t) == Total(k.deposits, OfToken(t));
    }
    forall b
      ensures Get(k'.bucketTotal, b) == Total(k'.deposits, OfBucket(b))
    {
      TotalConsumed(k.deposits, id, OfBucket(b));
      assert Get(k.bucketTotal, b) == Total(k.deposits, OfBucket(b));
    }
  }

  lemma ConsumeKeepsIndex(k: Books, id: nat)
    requires Indexed(k) && id < |k.deposits|
    ensures Indexed(Consume(k, id))
  {
    var k' := Consume(k, id);
    forall b
      ensures IdList(k', b) == Ids(k'.deposits, b)
      ensures 0 <= Get(k'.cursor, b) <= |IdList(k', b)|
      ensures AllConsumed(k'.deposits, IdList(k', b), Get(k'.cursor, b))
    {
      IdsConsumed(k.deposits, id, b);
      assert IdList(k', b) == IdList(k, b) && Get(k'.cursor, b) == Get(k.cursor, b);
      assert AllConsumed(k.deposits, IdList(k, b), Get(k.cursor, b));
    }
  }

  lemma ConsumeKeepsRecords(k: Books, id: nat)
    requires Recorded(k) && id < |k.deposits|
    ensures Recorded(Consume(k, id))
  {
    var k' := Consume(k, id);
    assert forall i :: 0 <= i < |k.deposits| ==> k'.deposits[i] == k.deposits[i].(consumed := k'.deposits[i].consumed);
  }

  lemma SettleKeepsLedger(k: Books, id: nat, e: Event)
    requires Ledger(k) && id < |k.deposits| && !k.deposits[id].consumed
    requires Settles(e, id) && Honest(k.deposits, e)
    ensures Ledger(Consume(k, id).(log := k.log + [e]))
  {
    hide Flow, Exits;
    var k' := Consume(k, id).(log := k.log + [e]);
    forall t
      ensures Flow(k'.log, t, Credits) == Flow(k'.log, t, Refunds) + Flow(k'.log, t, Claims) + Get(k'.tracked, t)
      ensures Flow(k'.log, t, FeesIn) == Flow(k'.log, t, FeesOut) + Get(k'.feesTotal, t)
    {
      FlowPushed(k.log, e, t, Credits);
      FlowPushed(k.log, e, t, Refunds);
      FlowPushed(k.log, e, t, Claims);
      FlowPushed(k.log, e, t, FeesIn);
      FlowPushed(k.log, e, t, FeesOut);
      assert Flow(k.log, t, Credits) == Flow(k.log, t, Refunds) + Flow(k.log, t, Claims) + Get(k.tracked, t);
      assert Flow(k.log, t, FeesIn) == Flow(k.log, t, FeesOut) + Get(k.feesTotal, t);
    }
    forall i: nat
      ensures Exits(k'.log, i) == if i < |k'.deposits| && k'.deposits[i].consumed then 1 else 0
    {
      ExitsPushed(k.log, e, i);
      assert Exits(k.log, i) == if i < |k.deposits| && k.deposits[i].consumed then 1 else 0;
    }
    forall i | 0 <= i < |k'.log|
      ensures Honest(k'.deposits, k'.log[i])
    {
      assert i < |k.log| ==> Honest(k.deposits, k.log[i]);
    }
  }

  /** Consuming a deposit and logging its settlement, whichever of the two it is. */
  lemma SettleInv(k: Books, id: nat, e: Event)
    requires BooksInv(k) && id < |k.deposits| && !k.deposits[id].consumed
    requires Settles(e, id) && Honest(k.deposits, e)
    ensures BooksInv(Consume(k, id).(log := k.log + [e]))
  {
    ConsumeKeepsTotals(k, id);
    ConsumeKeepsIndex(k, id);
    ConsumeKeepsRecords(k, id);
    SettleKeepsLedger(k, id, e);
    LogIsApart(Consume(k, id), k.log + [e]);
  }

  /** Totals and indexes do not depend on the log. */
  lemma LogIsApart(k: Books, log: seq<Event>)
    ensures Totals(k) ==> Totals(k.(log := log))
    ensures Indexed(k) ==> Indexed(k.(log := log))
    ensures Recorded(k) ==> Recorded(k.(log := log))
  {
    var k' := k.(log := log);
    assert forall b :: IdList(k', b) == IdList(k, b);
  }

  lemma ClaimInv(k: Books, id: nat, to: Address)
    requires BooksInv(k) && id < |k.deposits| && !k.deposits[id].consumed
    ensures BooksInv(Claim(k, id, to))
  {
    var d := k.deposits[id];
    SettleInv(k, id, Claimed(id, to, d.token, d.amount, ClaimFee(d)));
  }

  lemma RefundInv(k: Books, id: nat)
    requires BooksInv(k) && id < |k.deposits| && !k.deposits[id].consumed
    ensures BooksInv(Refund(k, id))
  {
    var d := k.deposits[id];
    SettleInv(k, id, Refunded(id, d.funder, d.token, d.amount));
  }

  /** A deposit the vault may record: open, within range, and with an unused constraint. */
  predicate Fundable(k: Books, d: Deposit) {
    && !d.consumed && d.feeBps <= MAX_FEE_BPS && 0 < d.amount <= MAX_U128
    && (d.constraint != 0 ==> Get(k.uses, (d.constraint, d.funder)) == 0)
  }

  lemma RecordKeepsBucket(k: Books, d: Deposit, b: Bucket)
    requires Indexed(k)
    ensures var k' := Record(k, d);
            && IdList(k', b) == Ids(k'.deposits, b) && 0 <= Get(k'.cursor, b) <= |IdList(k', b)|
            && AllConsumed(k'.deposits, IdList(k', b), Get(k'.cursor, b))
  {
    hide Ids;
    IdsPushed(k.deposits, d, b);
    IdsExact(k.deposits, b);
    assert IdList(k, b) == Ids(k.deposits, b) && 0 <= Get(k.cursor, b) <= |IdList(k, b)|;
    assert AllConsumed(k.deposits, IdList(k, b), Get(k.cursor, b));
    assert forall i :: 0 <= i < |IdList(k, b)| ==> IdList(k, b)[i] in Ids(k.deposits, b);
  }

  lemma RecordKeepsIndex(k: Books, d: Deposit)
    requires Indexed(k)
    ensures Indexed(Record(k, d))
  {
    hide Ids, AllConsumed, Record, IdList;
    var k' := Record(k, d);
    forall b
      ensures IdList(k', b) == Ids(k'.deposits, b) && 0 <= Get(k'.cursor, b) <= |IdList(k', b)|
      ensures AllConsumed(k'.deposits, IdList(k', b), Get(k'.cursor, b))
    {
      RecordKeepsBucket(k, d, b);
    }
  }

  lemma RecordKeepsRecords(k: Books, d: Deposit)
    requires Recorded(k) && Fundable(k, d)
    ensures Recorded(Record(k, d))
  {
  }

  lemma RecordKeepsTotals(k: Books, d: Deposit)
    requires Totals(k) && Fundable(k, d)
    ensures Totals(Record(k, d))
  {
    var k' := Record(k, d);
    forall t
      ensures Get(k'.tracked, t) == Total(k'.deposits, OfToken(t))
      ensures Get(k'.feesTotal, t) == FeeSum(k'.feesOwed, t)
    {
      TotalPushed(k.deposits, d, OfToken(t));
      assert Get(k.tracked, t) == Total(k.deposits, OfToken(t));
      assert Get(k.feesTotal, t) == FeeSum(k.feesOwed, t);
    }
    forall b
      ensures Get(k'.bucketTotal, b) == Total(k'.deposits, OfBucket(b))
    {
      TotalPushed(k.deposits, d, OfBucket(b));
      assert Get(k.bucketTotal, b) == Total(k.deposits, OfBucket(b));
    }
  }

  lemma RecordKeepsLedger(k: Books, d: Deposit)
    requires Ledger(k) && Fundable(k, d)
    ensures Ledger(Record(k, d))
  {
    var k' := Record(k, d);
    var e := Funded(|k.deposits|, d.funder, d.token, d.amount);
    LedgerPushed(k, e);
    forall t
      ensures Flow(k'.log, t, Credits) == Flow(k'.log, t, Refunds) + Flow(k'.log, t, Claims) + Get(k'.tracked, t)
      ensures Flow(k'.log, t, FeesIn) == Flow(k'.log, t, FeesOut) + Get(k'.feesTotal, t)
    {
      assert Flow(k.log, t, Credits) == Flow(k.log, t, Refunds) + Flow(k.log, t, Claims) + Get(k.tracked, t);
      assert Flow(k.log, t, FeesIn) == Flow(k.log, t, FeesOut) + Get(k.feesTotal, t);
    }
    forall i: nat
      ensures Exits(k'.log, i) == if i < |k'.deposits| && k'.deposits[i].consumed then 1 else 0
    {
      assert Exits(k.log, i) == if i < |k.deposits| && k.deposits[i].consumed then 1 else 0;
    }
    forall i | 0 <= i < |k'.log|
      ensures Honest(k'.deposits, k'.log[i])
    {
      assert i < |k.log| ==> Honest(k.deposits, k.log[i]);
    }
  }

  lemma RecordInv(k: Books, d: Deposit)
    requires BooksInv(k) && Fundable(k, d)
    ensures BooksInv(Record(k, d))
  {
    RecordKeepsIndex(k, d);
    RecordKeepsRecords(k, d);
    RecordKeepsTotals(k, d);
    RecordKeepsLedger(k, d);
  }

  /** Appending an event that settles nothing adds its amounts and leaves every exit count alone. */
  lemma LedgerPushed(k: Books, e: Event)
    requires !e.Refunded? && !e.Claimed?
    ensures forall t, kind :: Flow(k.log + [e], t, kind) == Flow(k.log, t, kind) + Amount(e, t, kind)
    ensures forall id: nat :: Exits(k.log + [e], id) == Exits(k.log, id)
  {
    forall t, kind
      ensures Flow(k.log + [e], t, kind) == Flow(k.log, t, kind) + Amount(e, t, kind)
    {
      FlowPushed(k.log, e, t, kind);
    }
    forall id: nat
      ensures Exits(k.log + [e], id) == Exits(k.log, id)
    {
      ExitsPushed(k.log, e, id);
    }
  }

  /** Fees move only between the two fee tables and the log. */
  ghost predicate FeeMove(k: Books, k': Books, verifier: Address, token: Address, delta: int, e: Event) {
    && k' == k.(feesOwed := k'.feesOwed, feesTotal := k'.feesTotal, log := k.log + [e])
    && k'.feesOwed == k.feesOwed[(verifier, token) := Get(k.feesOwed, (verifier, token)) + delta]
    && k'.feesTotal == k.feesTotal[token := Get(k.feesTotal, token) + delta]
    && Get(k.feesOwed, (verifier, token)) + delta >= 0
    && ((delta >= 0 && e == FeeAccrued(verifier, token, delta))
        || (delta <= 0 && e == FeesDistributed(verifier, token, -delta)))
  }

  lemma FeeMoveKeepsTotals(k: Books, k': Books, verifier: Address, token: Address, delta: int, e: Event)
    requires Totals(k) && FeeMove(k, k', verifier, token, delta, e)
    ensures Totals(k')
  {
    forall t
      ensures Get(k'.feesTotal, t) == FeeSum(k'.feesOwed, t)
    {
      FeeSumUpdate(k.feesOwed, t, (verifier, token), Get(k.feesOwed, (verifier, token)) + delta);
      assert Get(k.feesTotal, t) == FeeSum(k.feesOwed, t);
    }
    forall p
      ensures Get(k'.feesOwed, p) >= 0
    {
      assert Get(k.feesOwed, p) >= 0;
    }
  }

  lemma FeeMoveKeepsLedger(k: Books, k': Books, verifier: Address, token: Address, delta: int, e: Event)
    requires Ledger(k) && FeeMove(k, k', verifier, token, delta, e)
    ensures Ledger(k')
  {
    LedgerPushed(k, e);
    forall t
      ensures Flow(k'.log, t, Credits) == Flow(k'.log, t, Refunds) + Flow(k'.log, t, Claims) + Get(k'.tracked, t)
      ensures Flow(k'.log, t, FeesIn) == Flow(k'.log, t, FeesOut) + Get(k'.feesTotal, t)
    {
      assert Flow(k.log, t, Credits) == Flow(k.log, t, Refunds) + Flow(k.log, t, Claims) + Get(k.tracked, t);
      assert Flow(k.log, t, FeesIn) == Flow(k.log, t, FeesOut) + Get(k.feesTotal, t);
    }
    forall i | 0 <= i < |k'.log|
      ensures Honest(k'.deposits, k'.log[i])
    {
      assert i < |k.log| ==> Honest(k.deposits, k.log[i]);
    }
  }

  lemma FeeMoveInv(k: Books, k': Books, verifier: Address, token: Address, delta: int, e: Event)
    requires BooksInv(k) && FeeMove(k, k', verifier, token, delta, e)
    ensures BooksInv(k')
  {
    FeeMoveKeepsTotals(k, k', verifier, token, delta, e);
    FeeMoveKeepsLedger(k, k', verifier, token, delta, e);
    assert Indexed(k') by {
      assert forall b :: IdList(k', b) == IdList(k, b);
    }
  }

  lemma AccrueInv(k: Books, verifier: Address, token: Address, fee: nat)
    requires BooksInv(k)
    ensures BooksInv(Accrue(k, verifier, token, fee))
  {
    if fee != 0 {
      assert Get(k.feesOwed, (verifier, token)) >= 0;
      FeeMoveInv(k, Accrue(k, verifier, token, fee), verifier, token, fee, FeeAccrued(verifier, token, fee));
    }
  }

  lemma DistributeInv(k: Books, verifier: Address, token: Address, amount: nat)
    requires BooksInv(k) && amount <= Get(k.feesOwed, (verifier, token))
    ensures BooksInv(Distribute(k, verifier, token, amount))
  {
    var delta: int := -(amount as int);
    FeeMoveInv(k, Distribute(k, verifier, token, amount), verifier, token, delta,
               FeesDistributed(verifier, token, amount));
  }
}
