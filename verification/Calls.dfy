/**
 What each call into the vault does to the whole system, callbacks included, said by its arguments and by the
 state it found: when it succeeds, which deposits it consumes, what it pays to whom, and what it leaves alone.
 */
module Calls {
  import opened Types
  import opened KeySet
  import opened Factory
  import opened Books
  import opened Sweeps
  import opened OwnerCache
  import opened Vault
  import opened VaultProofs
  import opened Claims
  import opened System
  import opened SystemProofs

  /** A call that ends with a payment. */
  predicate Pays(e: Entry) {
    !e.FundCall? && !e.RefreshCall? && !e.WithdrawFeesCall?
  }

  /** The transfers once a payment is made; a zero payment makes none. */
  function SentBy(s: World, o: Out): seq<Transfer>
    requires o.Out?
  {
    if o.net == 0 then s.sent else s.sent + [Transfer(o.token, o.to, o.net, s.c.now, CauseOf(s.v, o))]
  }

  /** A paying call leaves the storage its operation computed and the one transfer, or nothing at all. */
  lemma PaymentCall(s: World, e: Entry, cb: seq<Action>, accepted: bool)
    requires Inv(s) && Pays(e)
    ensures var r, o := Exec(s, Enter(e, cb, accepted)), Payment(s, e);
            && (r.ok <==> o.Out? && (o.net == 0 || accepted))
            && (r.ok ==> r.w.v == o.v && r.w.px == s.px && r.w.sent == SentBy(s, o) && Later(s.c, r.w.c))
            && (!r.ok ==> r.w == s)
  {
    hide VaultInv, ExecAll, Later, CtxOk, Affords, RefundDeposit, RefreshAndSweep, SweepDefault, SweepUntracked,
         SweepDeposits, SweepBucket, SweepBucketDeposits;
    var o := Payment(s, e);
    LaterRefl(s.c);
    if o.Out? {
      PaymentInv(s, e);
      FloorNeverFalls(s, e);
      PaymentCovered(s, o);
      if o.net != 0 {
        var h := Send(s, o).h;
        BalanceInRange(s.c, o.token);
        BalanceIsApart(s.c, o.token, Get(s.c.bal, o.token) - o.net);
        LockedFrame(h, cb);
        LaterTrans(s.c, h.c, ExecAll(h, cb).c);
      }
    }
  }

  lemma PaymentCovered(s: World, o: Out)
    requires Inv(s) && o.Out? && Affords(s.v, s.c, o) && VaultInv(o.v, s.c, s.px.used)
    ensures Get(s.c.bal, o.token) >= o.net
  {
    hide VaultInv, CtxOk;
    HeldIsNatural(o.v, s.c, s.px.used, o.token);
    assert Get(s.c.bal, o.token) >= Held(s.v.k, o.token);
  }

  // ------------------------------------------------------------------ refunds

  /** An open deposit's own funder asks for it after its window. */
  predicate MayRefund(s: World, caller: Address, id: nat) {
    && id < |s.v.k.deposits|
    && var d := s.v.k.deposits[id];
       d.funder == caller && !d.consumed && s.c.now > d.fundedAt + d.window
  }

  /**
   A refund succeeds exactly when an open deposit's own funder asks after its window and takes the money. Then
   the deposit is consumed, all of it has been sent to the funder, and nothing else has changed.
   */
  lemma RefundsExactlyWhen(s: World, caller: Address, id: nat, cb: seq<Action>, accepted: bool)
    requires Reachable(s)
    ensures var r := Exec(s, Enter(RefundCall(caller, id), cb, accepted));
            && (r.ok <==> MayRefund(s, caller, id) && accepted)
            && (r.ok ==> RefundDone(s, r.w, id))
            && (!r.ok ==> r.w == s)
  {
    hide Inv, ExecAll;
    ReachableInv(s);
    var e := RefundCall(caller, id);
    PaymentCall(s, e, cb, accepted);
    if MayRefund(s, caller, id) {
      AmountsPositive(s, id);
    }
  }

  ghost predicate RefundDone(s: World, w: World, id: nat) {
    && id < |s.v.k.deposits|
    && var d := s.v.k.deposits[id];
       && w.v.k.deposits == s.v.k.deposits[id := d.(consumed := true)]
       && w.v.k.log == s.v.k.log + [Refunded(id, d.funder, d.token, d.amount)]
       && w.sent == s.sent + [Transfer(d.token, d.funder, d.amount, s.c.now, Refunding(|s.v.k.log|))]
       && w.v.ca == s.v.ca && w.v.paid == s.v.paid && w.v.nonces == s.v.nonces && w.px == s.px
       && w.v.k.feesOwed == s.v.k.feesOwed && w.v.k.ids == s.v.k.ids && w.v.k.cursor == s.v.k.cursor
  }

  lemma AmountsPositive(s: World, id: nat)
    requires Inv(s) && id < |s.v.k.deposits|
    ensures s.v.k.deposits[id].amount > 0
  {
    hide CacheInv, Authorised, PaidInv, PaidAddsUp, CtxOk, Totals, Indexed, Ledger;
  }

  // ------------------------------------------------------------------ sweeps

  /** The bucket a sweep is about. */
  function Target(s: World, e: Entry): Bucket
    requires Pays(e) && !e.RefundCall?
  {
    match e
    case SweepCall(ver, t, _) => Bucket(ver, 0, t)
    case RefreshAndSweepCall(ver, _, t, _, _) => Bucket(ver, 0, t)
    case SweepUntrackedCall(t) => Bucket(s.c.f.defaultVerifier, 0, t)
    case SweepDepositsCall(ver, t, _) => Bucket(ver, 0, t)
    case SweepBucketCall(ver, constraint, t, _, _, _) => Bucket(ver, constraint, t)
    case SweepBucketDepositsCall(ver, constraint, t, _, _, _) => Bucket(ver, constraint, t)
  }

  /** The deposits a sweep is asked for: listed ones, or the next page of at most 100 of the bucket's own. */
  function Wanted(s: World, e: Entry): seq<nat>
    requires Pays(e) && !e.RefundCall?
  {
    match e
    case SweepCall(_, _, limit) => NextPage(s, Target(s, e), limit)
    case RefreshAndSweepCall(_, _, _, limit, _) => NextPage(s, Target(s, e), limit)
    case SweepBucketCall(_, _, _, _, limit, _) => NextPage(s, Target(s, e), limit)
    case SweepUntrackedCall(_) => []
    case SweepDepositsCall(_, _, ids) => ids
    case SweepBucketDepositsCall(_, _, _, _, ids, _) => ids
  }

  function NextPage(s: World, b: Bucket, limit: nat): seq<nat> {
    var list := Ids(s.v.k.deposits, b);
    var from := Min(Cursor(s.v.k, b), |list|);
    var page := if 1 <= limit <= 100 then limit else 100;
    list[from..Min(|list|, from + page)]
  }

  /** The policy's answer as a rate in basis points: between 0 and 100, and 0 without an answer. */
  function RateOf(c: Ctx, ver: Address, t: Address): int {
    Max(0, Min(100, Get(c.quotes, (ver, t))))
  }

  /** The untracked funds a sweep takes along, once its proof (if any) is applied: all there are, or none. */
  ghost function SurplusDue(s: World, e: Entry, ca: Cache): int
    requires Pays(e) && !e.RefundCall?
  {
    var b := Target(s, e);
    var held := Total(s.v.k.deposits, OfToken(b.token)) + FeeSum(s.v.k.feesOwed, b.token);
    if b.constraint == 0 && !e.SweepDepositsCall? && b.verifier == s.c.f.defaultVerifier
       && Get(ca.latest, b.verifier) >= ca.untracked
    then Max(0, Get(s.c.bal, b.token) - held) else 0
  }

  /** The log grows by claims of bucket `b` for `to`, and by an accrued fee. */
  ghost predicate LogsClaims(k: Books, k': Books, b: Bucket, to: Address) {
    && k.log <= k'.log
    && forall j :: |k.log| <= j < |k'.log| ==> k'.log[j].FeeAccrued? || ClaimOf(k.deposits, k'.log[j], b, to)
  }

  /**
   What a sweep did: it consumed the deposits it was asked for and no others, recorded one payout of exactly
   their amounts and the untracked funds due, at exactly their fees, through a verifier that is the default or
   allowed, to the recorded owner or the wallet of the proof presented; and sent what is left after the fee.
   */
  ghost predicate SweepDone(s: World, e: Entry, w: World)
    requires Pays(e) && !e.RefundCall?
  {
    var b, wanted := Target(s, e), Wanted(s, e);
    && (b.verifier == s.c.f.defaultVerifier || b.verifier in s.c.allowed)
    && OnlyConsumed(s.v.k.deposits, w.v.k.deposits, wanted)
    && |w.v.paid| == |s.v.paid| + 1 && s.v.paid <= w.v.paid
    && var p := w.v.paid[|s.v.paid|];
       && Bucket(p.verifier, p.constraint, p.token) == b
       && p.untracked == SurplusDue(s, e, w.v.ca) && p.rate == RateOf(s.c, b.verifier, b.token)
       && p.gross == OpenSum(s.v.k.deposits, wanted) + p.untracked
       && p.fee == OpenFees(s.v.k.deposits, wanted) + p.untracked * p.rate / BPS
       && (p.byDefault <==> b.verifier == s.c.f.defaultVerifier) && p.seen == |w.v.ca.hist|
       && p.to == (if e.SweepBucketCall? || e.SweepBucketDepositsCall? then e.proof.wallet
                   else Get(w.v.ca.owner, b.verifier))
       && p.fee <= p.gross && LogsClaims(s.v.k, w.v.k, b, p.to)
       && w.sent == s.sent + (if p.gross == p.fee then []
                              else [Transfer(b.token, p.to, p.gross - p.fee, s.c.now, Paying(|s.v.paid|))])
       && Get(w.v.k.feesOwed, (b.verifier, b.token)) == Get(s.v.k.feesOwed, (b.verifier, b.token)) + p.fee
       && (forall q :: q != (b.verifier, b.token) ==> Get(w.v.k.feesOwed, q) == Get(s.v.k.feesOwed, q))
  }

  lemma AccruedFees(k0: Books, k: Books, ver: Address, t: Address, fee: nat, b: Bucket, to: Address)
    requires LogsClaims(k0, k, b, to)
    ensures var k' := Accrue(k, ver, t, fee);
            && LogsClaims(k0, k', b, to) && k'.deposits == k.deposits
            && Get(k'.feesOwed, (ver, t)) == Get(k.feesOwed, (ver, t)) + fee
            && (forall q :: q != (ver, t) ==> Get(k'.feesOwed, q) == Get(k.feesOwed, q))
  {
    hide ClaimOf;
  }

  /** What Pay leaves and sends, given what was taken. */
  lemma PayIs(s: World, v: Vault, e: Entry, w: Swept, to: Address, u: nat, uFee: nat)
    requires Pays(e) && !e.RefundCall? && v.paid == s.v.paid && v.k == s.v.k
    requires var b := Target(s, e);
             && (b.verifier == s.c.f.defaultVerifier || b.verifier in s.c.allowed)
             && OnlyConsumed(s.v.k.deposits, w.k.deposits, Wanted(s, e))
             && w.gross == OpenSum(s.v.k.deposits, Wanted(s, e)) && w.fee == OpenFees(s.v.k.deposits, Wanted(s, e))
             && w.k.feesOwed == s.v.k.feesOwed && LogsClaims(s.v.k, w.k, b, to)
             && u == SurplusDue(s, e, v.ca) && uFee == u * Quote(s.c, b.verifier, b.token) / BPS
             && w.fee + uFee <= w.gross + u
             && to == (if e.SweepBucketCall? || e.SweepBucketDepositsCall? then e.proof.wallet
                       else Get(v.ca.owner, b.verifier))
    ensures var b := Target(s, e);
            var o := Pay(v.(k := w.k), s.c, b.verifier, b.constraint, b.token, to, w.gross + u, w.fee + uFee, u);
            SweepDone(s, e, s.(v := o.v, sent := SentBy(s, o)))
  {
    hide OnlyConsumed, OpenSum, OpenFees, SurplusDue, Wanted, LogsClaims, Accrue, Quote, RateOf;
    var b := Target(s, e);
    AccruedFees(s.v.k, w.k, b.verifier, b.token, w.fee + uFee, b, to);
    RateIsQuote(s.c, b.verifier, b.token);
  }

  lemma RateIsQuote(c: Ctx, ver: Address, t: Address)
    ensures RateOf(c, ver, t) == Quote(c, ver, t)
  {
  }

  /** The page a cursor sweep takes is the next page of the bucket's own deposits. */
  lemma PageIs(s: World, b: Bucket, limit: nat, to: Address)
    requires BooksInv(s.v.k)
    ensures var w := FromCursor(s.v.k, b, limit, to);
            && OnlyConsumed(s.v.k.deposits, w.k.deposits, NextPage(s, b, limit))
            && w.gross == OpenSum(s.v.k.deposits, NextPage(s, b, limit))
            && w.fee == OpenFees(s.v.k.deposits, NextPage(s, b, limit))
            && w.k.feesOwed == s.v.k.feesOwed && w.fee * 100 <= w.gross
            && LogsClaims(s.v.k, w.k, b, to)
  {
    hide BooksInv, OnlyConsumed, OpenSum, OpenFees, FromCursor, NextPage, Flow, ClaimOf;
    FromCursorTakes(s.v.k, b, limit, to);
    NextPageIs(s, b, limit);
    IndexHolds(s.v.k);
    PageLogs(s.v.k, b, limit, to);
  }

  lemma IndexHolds(k: Books)
    requires BooksInv(k)
    ensures Indexed(k)
  {
  }

  lemma NextPageIs(s: World, b: Bucket, limit: nat)
    requires BooksInv(s.v.k)
    ensures var list, i := IdList(s.v.k, b), Cursor(s.v.k, b);
            var end := PageEnd(|list|, i, limit);
            i <= end <= |list| && NextPage(s, b, limit) == list[i..end]
  {
    hide Totals, Recorded, Ledger;
    BucketListFacts(s.v.k, b);
    assert IdList(s.v.k, b) == Ids(s.v.k.deposits, b);
  }

  lemma ListIs(k: Books, b: Bucket, ids: seq<nat>, to: Address)
    requires BooksInv(k)
    ensures ByIds(k, b, ids, |ids|, to).Some? <==> Sweepable(k, b, ids)
    ensures ByIds(k, b, ids, |ids|, to).Some? ==>
              var w := ByIds(k, b, ids, |ids|, to).value;
              && OnlyConsumed(k.deposits, w.k.deposits, ids)
              && w.gross == OpenSum(k.deposits, ids) && w.fee == OpenFees(k.deposits, ids)
              && w.k.feesOwed == k.feesOwed && w.fee * 100 <= w.gross && LogsClaims(k, w.k, b, to)
  {
    hide BooksInv, OnlyConsumed, OpenSum, OpenFees, ByIds, Sweepable, Flow, ClaimOf;
    ByIdsTakes(k, b, ids, |ids|, to);
    if ByIds(k, b, ids, |ids|, to).Some? {
      IdsLog(k, b, ids, |ids|, to);
    }
    assert ids[..|ids|] == ids;
  }

  /** With a usable cache the untracked funds a default sweep takes are those due. */
  lemma LooseIsDue(s: World, v: Vault, e: Entry)
    requires BooksInv(s.v.k) && v.k == s.v.k && (e.SweepCall? || e.RefreshAndSweepCall?)
    requires OwnerOf(v.ca, s.c, e.verifier).Some? && Loose(v, s.c, e.verifier, e.token).Some?
    ensures SurplusDue(s, e, v.ca) == Loose(v, s.c, e.verifier, e.token).value
  {
    hide OwnerFresh, Indexed, Recorded, Ledger;
    assert Get(s.v.k.tracked, e.token) == Total(s.v.k.deposits, OfToken(e.token));
    assert Get(s.v.k.feesTotal, e.token) == FeeSum(s.v.k.feesOwed, e.token);
  }

  lemma DefaultDone(s: World, v: Vault, e: Entry, limit: nat)
    requires VaultInv(v, s.c, s.px.used) && v.paid == s.v.paid && v.k == s.v.k
    requires (e.SweepCall? || e.RefreshAndSweepCall?) && e.limit == limit
    requires SweepDefault(v, s.c, e.verifier, e.token, limit).Out?
    ensures var o := SweepDefault(v, s.c, e.verifier, e.token, limit);
            SweepDone(s, e, s.(v := o.v, sent := SentBy(s, o)))
  {
    hide BooksInv, CacheInv, Authorised, PaidInv, PaidAddsUp, OwnerFresh, FromCursor, Loose, Quote, OnlyConsumed,
         OpenSum, OpenFees, SurplusDue, SweepDone, Pay, NextPage;
    var b, to := Target(s, e), OwnerOf(v.ca, s.c, e.verifier).value;
    PageIs(s, b, limit, to);
    LooseIsDue(s, v, e);
    LooseFacts(v, s.c, e.verifier, e.token);
    var u := Loose(v, s.c, e.verifier, e.token).value;
    PayIs(s, v, e, FromCursor(s.v.k, b, limit, to), to, u, LooseFee(s.c, e.verifier, e.token, u).value);
  }

  lemma UntrackedDone(s: World, e: Entry)
    requires VaultInv(s.v, s.c, s.px.used) && e.SweepUntrackedCall? && SweepUntracked(s.v, s.c, e.token).Out?
    ensures var o := SweepUntracked(s.v, s.c, e.token); SweepDone(s, e, s.(v := o.v, sent := SentBy(s, o)))
  {
    hide CacheInv, Authorised, PaidInv, PaidAddsUp, OwnerFresh, Quote, OpenSum, OpenFees, SweepDone, Pay,
         Indexed, Recorded, Ledger;
    var t, ver := e.token, s.c.f.defaultVerifier;
    var u := Untracked(s.v.k, s.c, t).value;
    LooseFacts(s.v, s.c, ver, t);
    assert Get(s.v.k.tracked, t) == Total(s.v.k.deposits, OfToken(t));
    assert Get(s.v.k.feesTotal, t) == FeeSum(s.v.k.feesOwed, t);
    NothingWanted(s.v.k.deposits);
    assert s.v.(k := s.v.k) == s.v;
    PayIs(s, s.v, e, Swept(s.v.k, 0, 0, 0), OwnerOf(s.v.ca, s.c, ver).value, u, LooseFee(s.c, ver, t, u).value);
  }

  lemma NothingWanted(ds: seq<Deposit>)
    ensures OnlyConsumed(ds, ds, []) && OpenSum(ds, []) == 0 == OpenFees(ds, [])
  {
  }

  lemma DepositsDone(s: World, e: Entry)
    requires VaultInv(s.v, s.c, s.px.used) && e.SweepDepositsCall?
    requires SweepDeposits(s.v, s.c, e.verifier, e.token, e.ids).Out?
    ensures var o := SweepDeposits(s.v, s.c, e.verifier, e.token, e.ids);
            SweepDone(s, e, s.(v := o.v, sent := SentBy(s, o)))
  {
    hide BooksInv, CacheInv, Authorised, PaidInv, PaidAddsUp, OwnerFresh, ByIds, Quote, OnlyConsumed, OpenSum,
         OpenFees, SweepDone, Pay, Sweepable;
    var b, to := Target(s, e), OwnerOf(s.v.ca, s.c, e.verifier).value;
    ListIs(s.v.k, b, e.ids, to);
    PayIs(s, s.v, e, ByIds(s.v.k, b, e.ids, |e.ids|, to).value, to, 0, 0);
  }

  /** A proof that was applied came through the default or an allowed verifier. */
  lemma ProvenClaimable(v: Vault, c: Ctx, ver: Address, constraint: Word, p: Proof, att: AlphaAttestation)
    requires Prove(v, c, ver, constraint, p, att).Some?
    ensures ver == c.f.defaultVerifier || ver in c.allowed
  {
    hide Apply, Verifies, VerifyAlpha;
  }

  lemma BucketDone(s: World, e: Entry)
    requires VaultInv(s.v, s.c, s.px.used) && e.SweepBucketCall?
    requires SweepBucket(s.v, s.c, e.verifier, e.constraint, e.token, e.proof, e.limit, e.att).Out?
    ensures var o := SweepBucket(s.v, s.c, e.verifier, e.constraint, e.token, e.proof, e.limit, e.att);
            SweepDone(s, e, s.(v := o.v, sent := SentBy(s, o)))
  {
    hide BooksInv, CacheInv, Authorised, PaidInv, PaidAddsUp, FromCursor, Quote, OnlyConsumed, OpenSum, OpenFees,
         SweepDone, Pay, Prove, NextPage;
    ProveAppends(s.v, s.c, e.verifier, e.constraint, e.proof, e.att);
    ProvenClaimable(s.v, s.c, e.verifier, e.constraint, e.proof, e.att);
    var v1, b := Prove(s.v, s.c, e.verifier, e.constraint, e.proof, e.att).value, Target(s, e);
    PageIs(s, b, e.limit, e.proof.wallet);
    PayIs(s, v1, e, FromCursor(s.v.k, b, e.limit, e.proof.wallet), e.proof.wallet, 0, 0);
  }

  lemma BucketDepositsDone(s: World, e: Entry)
    requires VaultInv(s.v, s.c, s.px.used) && e.SweepBucketDepositsCall?
    requires SweepBucketDeposits(s.v, s.c, e.verifier, e.constraint, e.token, e.proof, e.ids, e.att).Out?
    ensures var o := SweepBucketDeposits(s.v, s.c, e.verifier, e.constraint, e.token, e.proof, e.ids, e.att);
            SweepDone(s, e, s.(v := o.v, sent := SentBy(s, o)))
  {
    hide BooksInv, CacheInv, Authorised, PaidInv, PaidAddsUp, ByIds, Quote, OnlyConsumed, OpenSum, OpenFees,
         SweepDone, Pay, Prove, Sweepable;
    ProveAppends(s.v, s.c, e.verifier, e.constraint, e.proof, e.att);
    ProvenClaimable(s.v, s.c, e.verifier, e.constraint, e.proof, e.att);
    var v1, b := Prove(s.v, s.c, e.verifier, e.constraint, e.proof, e.att).value, Target(s, e);
    ListIs(s.v.k, b, e.ids, e.proof.wallet);
    PayIs(s, v1, e, ByIds(s.v.k, b, e.ids, |e.ids|, e.proof.wallet).value, e.proof.wallet, 0, 0);
  }

  lemma RefreshAndSweepDone(s: World, e: Entry)
    requires VaultInv(s.v, s.c, s.px.used) && e.RefreshAndSweepCall?
    requires RefreshAndSweep(s.v, s.c, e.verifier, e.proof, e.token, e.limit, e.att).Out?
    ensures var o := RefreshAndSweep(s.v, s.c, e.verifier, e.proof, e.token, e.limit, e.att);
            SweepDone(s, e, s.(v := o.v, sent := SentBy(s, o)))
  {
    hide VaultInv, SweepDefault, SweepDone, Prove;
    ProveInv(s.v, s.c, s.px.used, e.verifier, 0, e.proof, e.att);
    ProveAppends(s.v, s.c, e.verifier, 0, e.proof, e.att);
    DefaultDone(s, Prove(s.v, s.c, e.verifier, 0, e.proof, e.att).value, e, e.limit);
  }

  lemma SweepPaymentDone(s: World, e: Entry)
    requires VaultInv(s.v, s.c, s.px.used) && Pays(e) && !e.RefundCall? && Payment(s, e).Out?
    ensures SweepDone(s, e, s.(v := Payment(s, e).v, sent := SentBy(s, Payment(s, e))))
  {
    hide VaultInv, SweepDone, SweepDefault, SweepUntracked, SweepDeposits, SweepBucket, SweepBucketDeposits,
         RefreshAndSweep;
    match e
    case SweepCall(ver, t, limit) => DefaultDone(s, s.v, e, limit);
    case SweepUntrackedCall(t) => UntrackedDone(s, e);
    case SweepDepositsCall(ver, t, ids) => DepositsDone(s, e);
    case SweepBucketCall(ver, constraint, t, p, limit, att) => BucketDone(s, e);
    case SweepBucketDepositsCall(ver, constraint, t, p, ids, att) => BucketDepositsDone(s, e);
    case RefreshAndSweepCall(ver, p, t, limit, att) => RefreshAndSweepDone(s, e);
  }

  /** All of this holds of every sweep that succeeds in a reachable state, whatever outside code does meanwhile. */
  lemma SweepsDo(s: World, e: Entry, cb: seq<Action>, accepted: bool)
    requires Reachable(s) && Pays(e) && !e.RefundCall?
    ensures var r := Exec(s, Enter(e, cb, accepted)); if r.ok then SweepDone(s, e, r.w) else r.w == s
  {
    hide Inv, Exec, Payment, SweepDone;
    ReachableInv(s);
    InvParts(s);
    PaymentCall(s, e, cb, accepted);
    var r := Exec(s, Enter(e, cb, accepted));
    if r.ok {
      SweepPaymentDone(s, e);
      OnlyStorageMatters(s, e, s.(v := r.w.v, sent := r.w.sent), r.w);
    }
  }

  lemma OnlyStorageMatters(s: World, e: Entry, w: World, w': World)
    requires Pays(e) && !e.RefundCall? && SweepDone(s, e, w) && w'.v == w.v && w'.sent == w.sent
    ensures SweepDone(s, e, w')
  {
    hide SurplusDue, Wanted, OnlyConsumed, OpenSum, OpenFees;
  }

  // ------------------------------------------------------------------ funding

  /**
   What a funding call must bring before any money moves: a funder, a verifier the policy allows, a window
   within the vault's bounds, an amount that fits, and for a constraint a verifier that supports it and a funder
   who never used it here.
   */
  ghost predicate MayDeposit(s: World, e: Entry)
    requires e.FundCall?
  {
    && e.funder != 0 && e.verifier in s.c.allowed
    && s.v.minWindow <= e.window <= s.v.maxWindow
    && 0 < e.amount < 0x1_0000_0000_0000_0000_0000_0000_0000_0000
    && (e.constraint != 0 ==>
          && e.verifier in s.c.verifiers && s.c.verifiers[e.verifier].supports
          && forall i :: 0 <= i < |s.v.k.deposits| ==> !UsedBy(s.v.k.deposits, i, (e.constraint, e.funder)))
  }

  lemma MayDepositIs(s: World, e: Entry)
    requires Recorded(s.v.k) && e.FundCall?
    ensures MayDeposit(s, e)
            <==> MayFund(s.v, s.c, e.funder, e.verifier, e.amount, e.constraint, e.window)
  {
    var n := Get(s.v.k.uses, (e.constraint, e.funder));
    if e.constraint != 0 && n != 0 {
      assert UsedBy(s.v.k.deposits, n - 1, (e.constraint, e.funder));
    }
  }

  /** The state a token's code finds while it is pulled: the lock is held and so much has arrived. */
  function Pulling(s: World, e: Entry): World
    requires e.FundCall?
  {
    s.(v := s.v.(locked := true), c := WithBalance(s.c, e.token, Get(s.c.bal, e.token) + e.received))
  }

  /** What arrived when its code is done. */
  function Arrived(s: World, e: Entry, cb: seq<Action>): int
    requires e.FundCall?
  {
    Get(ExecAll(Pulling(s, e), cb).c.bal, e.token) - Get(s.c.bal, e.token)
  }

  /** The new deposit records the call, the time, the balance increase and the rate quoted then. */
  ghost predicate FundDone(s: World, e: Entry, w: World)
    requires e.FundCall?
  {
    var n := |s.v.k.deposits|;
    && |w.v.k.deposits| == n + 1 && w.v.k.deposits[..n] == s.v.k.deposits
    && var d := w.v.k.deposits[n];
       && d.funder == e.funder && d.verifier == e.verifier && d.token == e.token && d.constraint == e.constraint
       && d.window == e.window && d.fundedAt == w.c.now && !d.consumed
       && d.amount == Get(w.c.bal, e.token) - Get(s.c.bal, e.token)
       && d.feeBps == RateOf(w.c, e.verifier, e.token)
       && w.v.k.log == s.v.k.log + [Funded(n, d.funder, d.token, d.amount)]
       && w.v.ca == s.v.ca && w.v.paid == s.v.paid && w.v.nonces == s.v.nonces && w.v.k.feesOwed == s.v.k.feesOwed
       && w.sent == s.sent && w.px == s.px && Later(s.c, w.c)
  }

  lemma FundIs(s: World, v: Vault, c: Ctx, e: Entry, credited: nat)
    requires e.FundCall? && v.(locked := false) == s.v && !s.v.locked && Later(s.c, c)
    requires credited == Get(c.bal, e.token) - Get(s.c.bal, e.token)
    ensures var w := s.(v := Fund(v, c, e.funder, e.verifier, e.token, credited, e.constraint, e.window)
                             .(locked := false), c := c);
            FundDone(s, e, w)
  {
    hide Later;
    RateIsQuote(c, e.verifier, e.token);
  }

  /**
   Funding succeeds exactly on a well-formed call whose money arrives: native coin whole, of a token a positive
   increase of the reported balance that fits 128 bits. What is recorded is what arrived.
   */
  lemma FundsExactlyWhen(s: World, e: Entry, cb: seq<Action>, accepted: bool)
    requires Reachable(s) && e.FundCall?
    ensures var r := Exec(s, Enter(e, cb, accepted));
            && (r.ok <==>
                  && MayDeposit(s, e)
                  && if e.token == NATIVE then e.value == e.amount && Get(s.c.bal, NATIVE) + e.amount <= MAX_U256
                     else
                       && e.value == 0 && e.token in s.c.bal && Get(s.c.bal, e.token) + e.received <= MAX_U256
                       && accepted && 0 < Arrived(s, e, cb) < 0x1_0000_0000_0000_0000_0000_0000_0000_0000)
            && (r.ok ==> FundDone(s, e, r.w))
            && (!r.ok ==> r.w == s)
  {
    hide VaultInv, CtxOk, MayDeposit, MayFund, Fund, ExecAll, Later, FundDone;
    ReachableInv(s);
    RecordsHold(s);
    MayDepositIs(s, e);
    LaterRefl(s.c);
    var t := e.token;
    BalanceInRange(s.c, t);
    if Front(s, e).Done? {
      BalanceIsApart(s.c, t, Get(s.c.bal, t) + e.amount);
      FundIs(s, s.v, WithBalance(s.c, t, Get(s.c.bal, t) + e.amount), e, e.amount);
      NativeUnlocked(s, e);
    } else if Front(s, e).Call? {
      var h := ExecAll(Pulling(s, e), cb);
      BalanceIsApart(s.c, t, Get(s.c.bal, t) + e.received);
      LockedFrame(Pulling(s, e), cb);
      LaterTrans(s.c, Pulling(s, e).c, h.c);
      var credited := Get(h.c.bal, t) - Get(s.c.bal, t);
      if credited > 0 {
        FundIs(s, h.v, h.c, e, credited);
      }
    }
  }

  lemma RecordsHold(s: World)
    requires Inv(s)
    ensures Recorded(s.v.k) && !s.v.locked
  {
    hide CacheInv, Authorised, PaidInv, PaidAddsUp, CtxOk, Totals, Indexed, Ledger;
  }

  lemma NativeUnlocked(s: World, e: Entry)
    requires !s.v.locked && e.FundCall? && e.token == NATIVE
    ensures var c := WithBalance(s.c, NATIVE, Get(s.c.bal, NATIVE) + e.amount);
            var v := Fund(s.v, c, e.funder, e.verifier, NATIVE, e.amount, e.constraint, e.window);
            v.(locked := false) == v
  {
  }

  // ------------------------------------------------------------------ distributing fees

  /** The state the policy's code finds: the lock is held and native fees are on their way to it. */
  function Distributed(s: World, e: Entry): World
    requires e.WithdrawFeesCall?
  {
    s.(v := s.v.(locked := true), c := WithBalance(s.c, e.token, Get(s.c.bal, e.token) - Outflow(s, e)),
       sent := s.sent + Outgoing(s, e))
  }

  /** What the distribution cost: native fees whole, of a token what the balance lost. */
  function Cost(s: World, e: Entry, cb: seq<Action>): int
    requires e.WithdrawFeesCall?
  {
    if e.token == NATIVE then Get(s.v.k.feesOwed, (e.verifier, e.token))
    else Max(0, Get(s.c.bal, e.token) - Get(ExecAll(Distributed(s, e), cb).c.bal, e.token))
  }

  /** So much less is owed under this verifier, nothing else changed, and native fees went to the policy in force. */
  ghost predicate DistributeDone(s: World, e: Entry, w: World, amount: int)
    requires e.WithdrawFeesCall?
  {
    var owed := Get(s.v.k.feesOwed, (e.verifier, e.token));
    && 0 <= amount <= owed
    && Get(w.v.k.feesOwed, (e.verifier, e.token)) == owed - amount
    && (forall q :: q != (e.verifier, e.token) ==> Get(w.v.k.feesOwed, q) == Get(s.v.k.feesOwed, q))
    && w.v.k.log == s.v.k.log + [FeesDistributed(e.verifier, e.token, amount)]
    && w.v.k.deposits == s.v.k.deposits && w.v.ca == s.v.ca && w.v.paid == s.v.paid && w.v.nonces == s.v.nonces
    && w.px == s.px && Later(s.c, w.c)
    && w.sent == s.sent + (if e.token != NATIVE then []
                           else [Transfer(NATIVE, s.c.f.policy, owed, s.c.now, Distributing(|s.v.k.log|))])
  }

  /** With nothing owed the call does nothing; else it succeeds exactly when what it costs is at most what is owed. */
  lemma DistributesExactlyWhen(s: World, e: Entry, cb: seq<Action>, accepted: bool)
    requires Reachable(s) && e.WithdrawFeesCall?
    ensures var r, owed := Exec(s, Enter(e, cb, accepted)), Get(s.v.k.feesOwed, (e.verifier, e.token));
            && (r.ok <==>
                  owed == 0 || (accepted && Cost(s, e, cb) <= owed
                                && (e.token != NATIVE ==> e.pulled <= Get(s.c.bal, e.token))))
            && (r.ok && owed != 0 ==> DistributeDone(s, e, r.w, Cost(s, e, cb)))
            && (!r.ok || owed == 0 ==> r.w == s)
  {
    hide VaultInv, CtxOk, ExecAll, Later;
    ReachableInv(s);
    LaterRefl(s.c);
    var t, owed := e.token, Get(s.v.k.feesOwed, (e.verifier, e.token));
    BalanceInRange(s.c, t);
    OwedIsHeld(s, e.verifier, t);
    if Front(s, e).Call? {
      var h := ExecAll(Distributed(s, e), cb);
      BalanceIsApart(s.c, t, Get(s.c.bal, t) - Outflow(s, e));
      LockedFrame(Distributed(s, e), cb);
      LaterTrans(s.c, Distributed(s, e).c, h.c);
    }
  }

  /** What is owed in a token is part of the balance. */
  lemma OwedIsHeld(s: World, ver: Address, t: Address)
    requires Inv(s)
    ensures 0 <= Get(s.v.k.feesOwed, (ver, t)) <= Get(s.c.bal, t)
  {
    hide CacheInv, Authorised, PaidInv, PaidAddsUp, CtxOk, Indexed, Recorded, Ledger;
    FeeSumBounds(s.v.k.feesOwed, t, (ver, t));
    BooksHeld(s.v.k, t);
    assert Get(s.v.k.feesTotal, t) == FeeSum(s.v.k.feesOwed, t);
    assert Get(s.c.bal, t) >= Held(s.v.k, t);
  }

  // ------------------------------------------------------------------ which sweeps succeed

  /** What a sweep needs, once its proof (if any) is applied in `v`. */
  ghost predicate CanPay(s: World, v: Vault, e: Entry)
    requires Pays(e) && !e.RefundCall?
  {
    var b := Target(s, e);
    match e
    case SweepBucketCall(_, _, _, _, _, _) => b.constraint != 0
    case SweepBucketDepositsCall(_, _, _, _, ids, _) => b.constraint != 0 && Sweepable(s.v.k, b, ids)
    case SweepDepositsCall(_, _, ids) => Payable(v.ca, s.c, b.verifier) && Sweepable(s.v.k, b, ids)
    case _ =>
      && Payable(v.ca, s.c, b.verifier)
      && (var due := b.verifier == s.c.f.defaultVerifier && Get(v.ca.latest, b.verifier) >= v.ca.untracked;
          && (e.SweepUntrackedCall? ==> due)
          && (due ==> KnownToken(s.c, b.token)))
      && SurplusDue(s, e, v.ca) * RateOf(s.c, b.verifier, b.token) <= MAX_U256
  }

  /** The storage once the proof a call carries is applied; None when the call carries one that is refused. */
  function AfterProof(s: World, e: Entry): Option<Vault> {
    if e.RefreshAndSweepCall? || e.SweepBucketCall? || e.SweepBucketDepositsCall?
    then Prove(s.v, s.c, e.verifier, Asked(e), e.proof, e.att) else Some(s.v)
  }

  /** A sweep whose payee takes the money succeeds exactly when its proof is accepted and it can pay. */
  lemma SweepsSucceedExactlyWhen(s: World, e: Entry, cb: seq<Action>)
    requires Reachable(s) && Pays(e) && !e.RefundCall?
    ensures Exec(s, Enter(e, cb, true)).ok
            <==> AfterProof(s, e).Some? && CanPay(s, AfterProof(s, e).value, e)
  {
    hide Inv, ExecAll, VaultInv, AfterProof, CanPay, Payment;
    ReachableInv(s);
    InvParts(s);
    PaymentCall(s, e, cb, true);
    SweepPays(s, e);
  }

  lemma SweepPays(s: World, e: Entry)
    requires VaultInv(s.v, s.c, s.px.used) && Pays(e) && !e.RefundCall?
    ensures Payment(s, e).Out? <==> AfterProof(s, e).Some? && CanPay(s, AfterProof(s, e).value, e)
  {
    hide CacheInv, Authorised, PaidInv, PaidAddsUp, OwnerFresh, FromCursor, ByIds, Prove, Quote, Pay, Sweepable,
         BooksInv, SurplusDue, OwnerOf, Loose, LooseFee, Payable;
    match e
    case SweepCall(ver, t, limit) => DefaultPays(s, s.v, e, limit);
    case RefreshAndSweepCall(ver, p, t, limit, att) =>
      if AfterProof(s, e).Some? {
        ProveInv(s.v, s.c, s.px.used, ver, 0, p, att);
        ProveAppends(s.v, s.c, ver, 0, p, att);
        DefaultPays(s, AfterProof(s, e).value, e, limit);
      }
    case SweepUntrackedCall(t) => UntrackedPays(s, e);
    case SweepDepositsCall(ver, t, ids) =>
      PayableExactlyWhen(s.v.ca, s.c, ver);
      if OwnerOf(s.v.ca, s.c, ver).Some? {
        ListPays(s, s.v, Target(s, e), ids, OwnerOf(s.v.ca, s.c, ver).value);
      }
    case SweepBucketCall(ver, constraint, t, p, limit, att) =>
      if AfterProof(s, e).Some? {
        ProveAppends(s.v, s.c, ver, constraint, p, att);
        PagePays(s, AfterProof(s, e).value, Target(s, e), limit, p.wallet, 0, 0);
      }
    case SweepBucketDepositsCall(ver, constraint, t, p, ids, att) =>
      if AfterProof(s, e).Some? {
        ProveAppends(s.v, s.c, ver, constraint, p, att);
        ListPays(s, AfterProof(s, e).value, Target(s, e), ids, p.wallet);
      }
  }

  lemma PagePays(s: World, v: Vault, b: Bucket, limit: nat, to: Address, u: nat, uFee: nat)
    requires BooksInv(s.v.k) && v.k == s.v.k && uFee <= u
    ensures var w := FromCursor(v.k, b, limit, to);
            Pay(v.(k := w.k), s.c, b.verifier, b.constraint, b.token, to, w.gross + u, w.fee + uFee, u).Out?
  {
    hide BooksInv, FromCursor, OnlyConsumed, OpenSum, OpenFees;
    PageIs(s, b, limit, to);
  }

  lemma ListPays(s: World, v: Vault, b: Bucket, ids: seq<nat>, to: Address)
    requires BooksInv(s.v.k) && v.k == s.v.k
    ensures ByIds(v.k, b, ids, |ids|, to).Some? <==> Sweepable(s.v.k, b, ids)
    ensures ByIds(v.k, b, ids, |ids|, to).Some? ==>
              var w := ByIds(v.k, b, ids, |ids|, to).value;
              Pay(v.(k := w.k), s.c, b.verifier, b.constraint, b.token, to, w.gross, w.fee, 0).Out?
  {
    hide BooksInv, ByIds, OnlyConsumed, OpenSum, OpenFees, Sweepable;
    ListIs(s.v.k, b, ids, to);
  }

  lemma DefaultPays(s: World, v: Vault, e: Entry, limit: nat)
    requires BooksInv(s.v.k) && v.k == s.v.k && (e.SweepCall? || e.RefreshAndSweepCall?) && e.limit == limit
    requires CacheInv(v.ca, s.c)
    ensures SweepDefault(v, s.c, e.verifier, e.token, limit).Out? <==> CanPay(s, v, e)
  {
    hide BooksInv, CacheInv, OwnerFresh, FromCursor, Quote, Pay, SurplusDue, Payable;
    var ver, t := e.verifier, e.token;
    PayableExactlyWhen(v.ca, s.c, ver);
    if OwnerOf(v.ca, s.c, ver).Some? && Loose(v, s.c, ver, t).Some? {
      LooseIsDue(s, v, e);
      RateIsQuote(s.c, ver, t);
      var u := Loose(v, s.c, ver, t).value;
      if LooseFee(s.c, ver, t, u).Some? {
        LooseFacts(v, s.c, ver, t);
        PagePays(s, v, Bucket(ver, 0, t), limit, OwnerOf(v.ca, s.c, ver).value, u, LooseFee(s.c, ver, t, u).value);
      }
    }
  }

  lemma UntrackedPays(s: World, e: Entry)
    requires BooksInv(s.v.k) && e.SweepUntrackedCall? && CacheInv(s.v.ca, s.c)
    ensures SweepUntracked(s.v, s.c, e.token).Out? <==> CanPay(s, s.v, e)
  {
    hide CacheInv, OwnerFresh, Quote, Indexed, Recorded, Ledger, Payable;
    var t, ver := e.token, s.c.f.defaultVerifier;
    PayableExactlyWhen(s.v.ca, s.c, ver);
    RateIsQuote(s.c, ver, t);
    assert Get(s.v.k.tracked, t) == Total(s.v.k.deposits, OfToken(t));
    assert Get(s.v.k.feesTotal, t) == FeeSum(s.v.k.feesOwed, t);
    if Untracked(s.v.k, s.c, t).Some? {
      var u := Untracked(s.v.k, s.c, t).value;
      QuoteCapped(s.c, ver, t, u);
    }
  }

  // ------------------------------------------------------------------ the quote

  /**
   What `sweepable` answers in any reachable state: the open deposits of the default bucket, and all untracked
   funds if the verifier is the default, its cache is valid and its proof as new as the cross-default floor.
   */
  lemma QuoteIs(s: World, ver: Address, t: Address)
    requires Reachable(s)
    ensures var open, held := Total(s.v.k.deposits, OfBucket(Bucket(ver, 0, t))),
                              Total(s.v.k.deposits, OfToken(t)) + FeeSum(s.v.k.feesOwed, t);
            var due := && ver == s.c.f.defaultVerifier && Get(s.v.ca.latest, ver) >= s.v.ca.untracked
                       && exists i: nat :: Validated(s.v.ca, ver, i) && StillCurrent(s.v.ca.hist[i], s.c);
            Quoted(s.v, s.c, ver, t)
            == if !due then Some(open)
               else if KnownToken(s.c, t) then Some(open + Max(0, Get(s.c.bal, t) - held)) else None
  {
    hide Reachable, CacheInv, Authorised, PaidInv, PaidAddsUp, CtxOk, Indexed, Recorded, Ledger, OwnerFresh,
         Validated, StillCurrent;
    ReachableInv(s);
    FreshExactlyWhen(s.v.ca, s.c, ver);
    assert Get(s.v.k.tracked, t) == Total(s.v.k.deposits, OfToken(t));
    assert Get(s.v.k.feesTotal, t) == FeeSum(s.v.k.feesOwed, t);
    assert Get(s.v.k.bucketTotal, Bucket(ver, 0, t)) == Total(s.v.k.deposits, OfBucket(Bucket(ver, 0, t)));
  }
}
