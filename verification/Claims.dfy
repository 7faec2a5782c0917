/**
 Which deposits a payout settled: the events logged since the payout before it. Every claim among them is of a
 deposit of the payout's own bucket and names its payee, and they are all it pays and charges for, besides
 untracked funds.
 */
module Claims {
  import opened Types
  import opened Books
  import opened Sweeps
  import opened OwnerCache
  import opened Vault
  import opened VaultProofs

  /** How many events had been logged when the payouts before the i-th were made. */
  function Start(paid: seq<Payout>, i: nat): nat
    requires i <= |paid|
  {
    if i == 0 then 0 else paid[i - 1].events
  }

  /** The flow of a stretch of the log. */
  function Between(log: seq<Event>, from: nat, upto: nat, t: Address, kind: Kind): int
    requires from <= upto <= |log|
  {
    Flow(log[..upto], t, kind) - Flow(log[..from], t, kind)
  }

  /** A claim belongs to the payout's bucket and names its payee. */
  ghost predicate ClaimedFor(ds: seq<Deposit>, e: Event, p: Payout) {
    e.Claimed? ==>
      e.id < |ds| && BucketOf(ds[e.id]) == Bucket(p.verifier, p.constraint, p.token) && e.to == p.to
  }

  /** Payout p pays and charges for the claims of log[from..p.events], and for untracked funds at its rate. */
  ghost predicate PaysFor(k: Books, from: nat, p: Payout) {
    && from <= p.events <= |k.log|
    && (forall j :: from <= j < p.events ==> ClaimedFor(k.deposits, k.log[j], p))
    && p.gross == Between(k.log, from, p.events, p.token, Claims) + p.untracked
    && p.fee == Between(k.log, from, p.events, p.token, ClaimFees) + p.untracked * p.rate / BPS
  }

  ghost predicate Unclaimed(log: seq<Event>, from: nat) {
    from <= |log| && forall j :: from <= j < |log| ==> !log[j].Claimed?
  }

  /** Every payout pays for its stretch of the log, and since the last one nothing was claimed. */
  ghost predicate ClaimsPaid(v: Vault) {
    && (forall i :: 0 <= i < |v.paid| ==> PaysFor(v.k, Start(v.paid, i), v.paid[i]))
    && Unclaimed(v.k.log, Start(v.paid, |v.paid|))
  }

  // ------------------------------------------------------------------ nothing but sweeps claims

  /** Later books: records keep their buckets, and the log grows by events that are no claims. */
  ghost predicate ClaimsNothing(k: Books, k': Books) {
    && |k.deposits| <= |k'.deposits|
    && (forall i :: 0 <= i < |k.deposits| ==> BucketOf(k'.deposits[i]) == BucketOf(k.deposits[i]))
    && k.log <= k'.log && Unclaimed(k'.log, |k.log|)
  }

  lemma PaysForLater(k: Books, k': Books, from: nat, p: Payout)
    requires PaysFor(k, from, p) && k.log <= k'.log && |k.deposits| <= |k'.deposits|
    requires forall i :: 0 <= i < |k.deposits| ==> BucketOf(k'.deposits[i]) == BucketOf(k.deposits[i])
    ensures PaysFor(k', from, p)
  {
    hide Flow;
    assert k'.log[..from] == k.log[..from] && k'.log[..p.events] == k.log[..p.events];
    forall j | from <= j < p.events
      ensures ClaimedFor(k'.deposits, k'.log[j], p)
    {
      assert ClaimedFor(k.deposits, k.log[j], p);
    }
  }

  lemma ClaimsApart(v: Vault, v': Vault)
    requires ClaimsPaid(v) && v'.paid == v.paid && ClaimsNothing(v.k, v'.k)
    ensures ClaimsPaid(v')
  {
    hide PaysFor;
    forall i | 0 <= i < |v.paid|
      ensures PaysFor(v'.k, Start(v'.paid, i), v'.paid[i])
    {
      PaysForLater(v.k, v'.k, Start(v.paid, i), v.paid[i]);
    }
  }

  lemma RefundClaimsNothing(k: Books, id: nat)
    requires id < |k.deposits|
    ensures ClaimsNothing(k, Refund(k, id))
  {
  }

  lemma FeesClaimNothing(k: Books, ver: Address, t: Address, amount: nat)
    ensures ClaimsNothing(k, Accrue(k, ver, t, amount)) && ClaimsNothing(k, Distribute(k, ver, t, amount))
  {
  }

  // ------------------------------------------------------------------ what a sweep logs

  /** What taking `w` from bucket `b` logs: claims of that bucket for `to`, amounting to what it took. */
  ghost predicate Logs(k: Books, w: Swept, b: Bucket, to: Address) {
    && |w.k.deposits| == |k.deposits|
    && (forall i :: 0 <= i < |k.deposits| ==> BucketOf(w.k.deposits[i]) == BucketOf(k.deposits[i]))
    && k.log <= w.k.log
    && (forall j :: |k.log| <= j < |w.k.log| ==> ClaimOf(k.deposits, w.k.log[j], b, to))
    && w.gross == Flow(w.k.log, b.token, Claims) - Flow(k.log, b.token, Claims)
    && w.fee == Flow(w.k.log, b.token, ClaimFees) - Flow(k.log, b.token, ClaimFees)
  }

  predicate ClaimOf(ds: seq<Deposit>, e: Event, b: Bucket, to: Address) {
    e.Claimed? && e.id < |ds| && BucketOf(ds[e.id]) == b && e.to == to
  }

  lemma LogsOne(k: Books, w: Swept, b: Bucket, id: nat, to: Address)
    requires Logs(k, w, b, to) && id < |w.k.deposits| && BucketOf(w.k.deposits[id]) == b
    ensures Logs(k, ClaimInto(w, id, to), b, to)
  {
    hide Flow, ClaimFee;
    var d := w.k.deposits[id];
    var e := Claimed(id, to, d.token, d.amount, ClaimFee(d));
    FlowPushed(w.k.log, e, b.token, Claims);
    FlowPushed(w.k.log, e, b.token, ClaimFees);
  }

  lemma {:induction false} WalkLogs(k: Books, b: Bucket, list: seq<nat>, from: nat, end: nat, to: Address)
    requires end <= |list| && InBucket(k.deposits, list, b)
    ensures Logs(k, Walk(k, list, from, end, to), b, to)
    decreases end
  {
    hide ClaimInto;
    if from < end {
      WalkLogs(k, b, list, from, end - 1, to);
      var w, id := Walk(k, list, from, end - 1, to), list[end - 1];
      LogsOne(k, w, b, id, to);
    }
  }

  lemma {:induction false} IdsLog(k: Books, b: Bucket, list: seq<nat>, n: nat, to: Address)
    requires n <= |list| && ByIds(k, b, list, n, to).Some?
    ensures Logs(k, ByIds(k, b, list, n, to).value, b, to)
  {
    hide ClaimInto;
    if n > 0 {
      IdsLog(k, b, list, n - 1, to);
      LogsOne(k, ByIds(k, b, list, n - 1, to).value, b, list[n - 1], to);
    }
  }

  lemma PageLogs(k: Books, b: Bucket, limit: nat, to: Address)
    requires Indexed(k)
    ensures Logs(k, FromCursor(k, b, limit, to), b, to)
  {
    hide Walk, Indexed, Distinct;
    BucketListFacts(k, b);
    var list, i := IdList(k, b), Cursor(k, b);
    WalkLogs(k, b, list, i, PageEnd(|list|, i, limit), to);
  }

  lemma LogsNothing(k: Books, b: Bucket, to: Address)
    ensures Logs(k, Swept(k, 0, 0, 0), b, to)
  {
  }

  // ------------------------------------------------------------------ every sweep pays for what it claimed

  /** Paying for what was taken closes the stretch. */
  lemma PayClaims(v: Vault, c: Ctx, w: Swept, b: Bucket, to: Address, u: nat, uFee: nat)
    requires ClaimsPaid(v) && Logs(v.k, w, b, to)
    requires uFee == u * Quote(c, b.verifier, b.token) / BPS && w.fee + uFee <= w.gross + u
    ensures ClaimsPaid(Pay(v.(k := w.k), c, b.verifier, b.constraint, b.token, to, w.gross + u, w.fee + uFee, u).v)
  {
    hide Flow, Accrue, Quote, PaysFor, ClaimsPaid, Logs, ClaimsNothing;
    var v' := Pay(v.(k := w.k), c, b.verifier, b.constraint, b.token, to, w.gross + u, w.fee + uFee, u).v;
    FeesClaimNothing(w.k, b.verifier, b.token, w.fee + uFee);
    StretchCloses(v, w, b, to, v'.paid[|v.paid|]);
    ClaimsApart(v.(k := w.k, paid := v'.paid), v');
  }

  lemma StretchCloses(v: Vault, w: Swept, b: Bucket, to: Address, p: Payout)
    requires ClaimsPaid(v) && Logs(v.k, w, b, to)
    requires Bucket(p.verifier, p.constraint, p.token) == b && p.to == to && p.events == |w.k.log|
    requires p.gross == w.gross + p.untracked && p.fee == w.fee + p.untracked * p.rate / BPS
    ensures ClaimsPaid(v.(k := w.k, paid := v.paid + [p]))
  {
    hide Flow, PaysFor;
    var n := |v.paid|;
    UnclaimedFlow(v.k.log, Start(v.paid, n), b.token);
    forall i | 0 <= i < n
      ensures PaysFor(w.k, Start(v.paid, i), v.paid[i])
    {
      PaysForLater(v.k, w.k, Start(v.paid, i), v.paid[i]);
    }
    PaidStretch(v, w, b, to, p);
  }

  lemma PaidStretch(v: Vault, w: Swept, b: Bucket, to: Address, p: Payout)
    requires ClaimsPaid(v) && Logs(v.k, w, b, to)
    requires Bucket(p.verifier, p.constraint, p.token) == b && p.to == to && p.events == |w.k.log|
    requires p.gross == w.gross + p.untracked && p.fee == w.fee + p.untracked * p.rate / BPS
    requires forall kind :: kind == Claims || kind == ClaimFees
                            ==> Flow(v.k.log, b.token, kind) == Flow(v.k.log[..Start(v.paid, |v.paid|)], b.token, kind)
    ensures PaysFor(w.k, Start(v.paid, |v.paid|), p)
  {
    hide Flow;
    var from := Start(v.paid, |v.paid|);
    assert w.k.log[..from] == v.k.log[..from] && w.k.log[..p.events] == w.k.log;
    forall j | from <= j < p.events
      ensures ClaimedFor(w.k.deposits, w.k.log[j], p)
    {
      if j >= |v.k.log| {
        assert ClaimOf(v.k.deposits, w.k.log[j], b, to);
      } else {
        assert w.k.log[j] == v.k.log[j];
      }
    }
  }

  lemma {:induction false} UnclaimedFlow(log: seq<Event>, from: nat, t: Address)
    requires Unclaimed(log, from)
    ensures Flow(log, t, Claims) == Flow(log[..from], t, Claims)
    ensures Flow(log, t, ClaimFees) == Flow(log[..from], t, ClaimFees)
    decreases |log|
  {
    if |log| == from {
      assert log[..from] == log;
    } else {
      var init := log[..|log| - 1];
      UnclaimedFlow(init, from, t);
      assert init[..from] == log[..from];
      assert !log[|log| - 1].Claimed?;
    }
  }

  lemma SweepDefaultClaims(v: Vault, c: Ctx, proxyUsed: set<nat>, ver: Address, t: Address, limit: nat)
    requires VaultInv(v, c, proxyUsed) && ClaimsPaid(v) && SweepDefault(v, c, ver, t, limit).Out?
    ensures ClaimsPaid(SweepDefault(v, c, ver, t, limit).v)
  {
    hide CacheInv, Authorised, PaidInv, PaidAddsUp, Totals, Recorded, Ledger, Indexed, OwnerOf, Loose, Quote,
         FromCursor, ClaimsPaid, Logs;
    var b, to, u := Bucket(ver, 0, t), OwnerOf(v.ca, c, ver).value, Loose(v, c, ver, t).value;
    PageLogs(v.k, b, limit, to);
    PayClaims(v, c, FromCursor(v.k, b, limit, to), b, to, u, LooseFee(c, ver, t, u).value);
  }

  lemma SweepUntrackedClaims(v: Vault, c: Ctx, t: Address)
    requires ClaimsPaid(v) && SweepUntracked(v, c, t).Out?
    ensures ClaimsPaid(SweepUntracked(v, c, t).v)
  {
    hide OwnerOf, Untracked, Quote, ClaimsPaid, Logs;
    var ver := c.f.defaultVerifier;
    var b, to, u := Bucket(ver, 0, t), OwnerOf(v.ca, c, ver).value, Untracked(v.k, c, t).value;
    LogsNothing(v.k, b, to);
    PayClaims(v, c, Swept(v.k, 0, 0, 0), b, to, u, LooseFee(c, ver, t, u).value);
    assert v.(k := v.k) == v;
  }

  lemma SweepDepositsClaims(v: Vault, c: Ctx, ver: Address, t: Address, ids: seq<nat>)
    requires ClaimsPaid(v) && SweepDeposits(v, c, ver, t, ids).Out?
    ensures ClaimsPaid(SweepDeposits(v, c, ver, t, ids).v)
  {
    hide OwnerOf, Quote, ClaimsPaid, Logs, ByIds;
    var b, to := Bucket(ver, 0, t), OwnerOf(v.ca, c, ver).value;
    IdsLog(v.k, b, ids, |ids|, to);
    PayClaims(v, c, ByIds(v.k, b, ids, |ids|, to).value, b, to, 0, 0);
  }

  lemma SweepBucketClaims(v: Vault, c: Ctx, ver: Address, constraint: Word, t: Address, p: Proof, limit: nat,
                          att: AlphaAttestation)
    requires Indexed(v.k) && ClaimsPaid(v) && SweepBucket(v, c, ver, constraint, t, p, limit, att).Out?
    ensures ClaimsPaid(SweepBucket(v, c, ver, constraint, t, p, limit, att).v)
  {
    hide Prove, Quote, Indexed, FromCursor, Logs, ClaimsPaid;
    ProveAppends(v, c, ver, constraint, p, att);
    var v1, b := Prove(v, c, ver, constraint, p, att).value, Bucket(ver, constraint, t);
    ProofClaimsNothing(v, v1);
    PageLogs(v1.k, b, limit, p.wallet);
    PayClaims(v1, c, FromCursor(v1.k, b, limit, p.wallet), b, p.wallet, 0, 0);
  }

  lemma SweepBucketDepositsClaims(v: Vault, c: Ctx, ver: Address, constraint: Word, t: Address, p: Proof,
                                  ids: seq<nat>, att: AlphaAttestation)
    requires ClaimsPaid(v) && SweepBucketDeposits(v, c, ver, constraint, t, p, ids, att).Out?
    ensures ClaimsPaid(SweepBucketDeposits(v, c, ver, constraint, t, p, ids, att).v)
  {
    hide Prove, Quote, ByIds, Logs, ClaimsPaid;
    ProveAppends(v, c, ver, constraint, p, att);
    var v1, b := Prove(v, c, ver, constraint, p, att).value, Bucket(ver, constraint, t);
    ProofClaimsNothing(v, v1);
    IdsLog(v1.k, b, ids, |ids|, p.wallet);
    PayClaims(v1, c, ByIds(v1.k, b, ids, |ids|, p.wallet).value, b, p.wallet, 0, 0);
  }

  lemma RefreshAndSweepClaims(v: Vault, c: Ctx, proxyUsed: set<nat>, ver: Address, p: Proof, t: Address, limit: nat,
                              att: AlphaAttestation)
    requires VaultInv(v, c, proxyUsed) && ClaimsPaid(v) && RefreshAndSweep(v, c, ver, p, t, limit, att).Out?
    ensures ClaimsPaid(RefreshAndSweep(v, c, ver, p, t, limit, att).v)
  {
    hide VaultInv, Prove, SweepDefault, ClaimsPaid;
    ProveInv(v, c, proxyUsed, ver, 0, p, att);
    ProveAppends(v, c, ver, 0, p, att);
    var v1 := Prove(v, c, ver, 0, p, att).value;
    ProofClaimsNothing(v, v1);
    SweepDefaultClaims(v1, c, proxyUsed, ver, t, limit);
  }

  lemma ProofClaimsNothing(v: Vault, v': Vault)
    requires ClaimsPaid(v) && v'.k == v.k && v'.paid == v.paid
    ensures ClaimsPaid(v')
  {
  }

  // ------------------------------------------------------------------ sums over all payouts

  ghost predicate AllHonest(k: Books) {
    forall j :: 0 <= j < |k.log| ==> Honest(k.deposits, k.log[j])
  }

  /** In a payout's stretch other tokens do not flow. */
  lemma {:induction false} OtherTokens(k: Books, from: nat, upto: nat, p: Payout, t: Address)
    requires from <= upto <= p.events <= |k.log| && t != p.token
    requires forall j :: from <= j < p.events ==> ClaimedFor(k.deposits, k.log[j], p)
    requires AllHonest(k)
    ensures Between(k.log, from, upto, t, ClaimFees) == 0
    decreases upto
  {
    if from < upto {
      OtherTokens(k, from, upto - 1, p, t);
      assert k.log[..upto][..upto - 1] == k.log[..upto - 1];
      assert ClaimedFor(k.deposits, k.log[upto - 1], p) && Honest(k.deposits, k.log[upto - 1]);
    }
  }

  /** One payout's fee: of the claims in its stretch, and on untracked funds. */
  lemma StretchFees(k: Books, from: nat, p: Payout, t: Address)
    requires PaysFor(k, from, p) && AllHonest(k)
    ensures from <= p.events <= |k.log|
    ensures PartOf(p, t, Fees) == Between(k.log, from, p.events, t, ClaimFees) + PartOf(p, t, SurplusFees)
  {
    hide AllHonest, Flow, ClaimedFor;
    if t != p.token {
      OtherTokens(k, from, p.events, p, t);
    }
  }

  /** The fees of the first i payouts: those of the claims so far, and those on untracked funds. */
  lemma {:induction false} FeesSoFar(v: Vault, i: nat, t: Address)
    requires ClaimsPaid(v) && i <= |v.paid|
    requires AllHonest(v.k)
    ensures Start(v.paid, i) <= |v.k.log|
    ensures PaidSum(v.paid[..i], t, Fees)
            == Flow(v.k.log[..Start(v.paid, i)], t, ClaimFees) + PaidSum(v.paid[..i], t, SurplusFees)
  {
    hide AllHonest, PartOf, PaysFor;
    if i == 0 {
      assert v.paid[..0] == [] && v.k.log[..0] == [];
    } else {
      hide Flow, PaidSum;
      FeesSoFar(v, i - 1, t);
      var p := v.paid[i - 1];
      assert v.paid[..i] == v.paid[..i - 1] + [p];
      PaidSumPushed(v.paid[..i - 1], p, t, Fees);
      PaidSumPushed(v.paid[..i - 1], p, t, SurplusFees);
      StretchFees(v.k, Start(v.paid, i - 1), p, t);
    }
  }

  /** All fees ever charged are those of the claims, at their recorded rates, and those on untracked funds. */
  lemma FeesOfClaims(v: Vault, t: Address)
    requires ClaimsPaid(v) && AllHonest(v.k)
    ensures PaidSum(v.paid, t, Fees) == Flow(v.k.log, t, ClaimFees) + PaidSum(v.paid, t, SurplusFees)
  {
    hide AllHonest, Flow, PaidSum, PaysFor;
    var n := |v.paid|;
    FeesSoFar(v, n, t);
    assert v.paid[..n] == v.paid;
    UnclaimedFlow(v.k.log, Start(v.paid, n), t);
  }
}
