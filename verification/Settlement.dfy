/**
 Whose money went where: over every run, each claimed deposit belongs to one payout of its own bucket, each
 payout charges exactly its claims' fees and the fee on its untracked funds, and what the vault sent is exactly
 its payouts, its refunds and the native fees it distributed.
 */
module Settlement {
  import opened Types
  import opened KeySet
  import opened Factory
  import opened Books
  import opened Sweeps
  import opened OwnerCache
  import opened Vault
  import opened VaultProofs
  import opened System
  import opened SystemProofs
  import opened Claims
  import opened Calls
  import opened Conservation

  // ------------------------------------------------------------------ claims

  lemma PaymentClaims(s: World, e: Entry)
    requires VaultInv(s.v, s.c, s.px.used) && ClaimsPaid(s.v) && Payment(s, e).Out?
    ensures ClaimsPaid(Payment(s, e).v)
  {
    hide CacheInv, Authorised, PaidInv, PaidAddsUp, Totals, Indexed, Recorded, Ledger, ClaimsPaid, SweepDefault,
         SweepUntracked, SweepDeposits, SweepBucket, SweepBucketDeposits, RefreshAndSweep, Refund;
    match e
    case RefundCall(caller, id) =>
      RefundClaimsNothing(s.v.k, id);
      ClaimsApart(s.v, Payment(s, e).v);
    case RefreshAndSweepCall(ver, p, t, limit, att) =>
      RefreshAndSweepClaims(s.v, s.c, s.px.used, ver, p, t, limit, att);
    case SweepCall(ver, t, limit) => SweepDefaultClaims(s.v, s.c, s.px.used, ver, t, limit);
    case SweepUntrackedCall(t) => SweepUntrackedClaims(s.v, s.c, t);
    case SweepDepositsCall(ver, t, ids) => SweepDepositsClaims(s.v, s.c, ver, t, ids);
    case SweepBucketCall(ver, constraint, t, p, limit, att) =>
      SweepBucketClaims(s.v, s.c, ver, constraint, t, p, limit, att);
    case SweepBucketDepositsCall(ver, constraint, t, p, ids, att) =>
      SweepBucketDepositsClaims(s.v, s.c, ver, constraint, t, p, ids, att);
    case _ =>
  }

  lemma EnterClaims(s: World, e: Entry, cb: seq<Action>, accepted: bool)
    requires Inv(s) && Reachable(s) && ClaimsPaid(s.v)
    ensures ClaimsPaid(Exec(s, Enter(e, cb, accepted)).w.v)
  {
    hide Inv, Exec, ClaimsPaid, Payment, FundDone, DistributeDone, Prove, MayDeposit, Cost;
    InvParts(s);
    var w := Exec(s, Enter(e, cb, accepted)).w;
    if Pays(e) {
      PaymentCall(s, e, cb, accepted);
      if Exec(s, Enter(e, cb, accepted)).ok {
        PaymentClaims(s, e);
      }
    } else if e.FundCall? {
      FundsExactlyWhen(s, e, cb, accepted);
      if Exec(s, Enter(e, cb, accepted)).ok {
        FundingClaims(s, e, w);
      }
    } else if e.WithdrawFeesCall? {
      DistributesExactlyWhen(s, e, cb, accepted);
      if Exec(s, Enter(e, cb, accepted)).ok && Get(s.v.k.feesOwed, (e.verifier, e.token)) != 0 {
        DistributionClaims(s, e, w, Cost(s, e, cb));
      }
    } else {
      RefreshClaims(s, e, cb, accepted);
    }
  }

  lemma FundingClaims(s: World, e: Entry, w: World)
    requires e.FundCall? && ClaimsPaid(s.v) && FundDone(s, e, w)
    ensures ClaimsPaid(w.v)
  {
    hide ClaimsPaid;
    assert forall i :: 0 <= i < |s.v.k.deposits| ==> w.v.k.deposits[i] == w.v.k.deposits[..|s.v.k.deposits|][i];
    ClaimsApart(s.v, w.v);
  }

  lemma DistributionClaims(s: World, e: Entry, w: World, amount: int)
    requires e.WithdrawFeesCall? && ClaimsPaid(s.v) && DistributeDone(s, e, w, amount)
    ensures ClaimsPaid(w.v)
  {
    hide ClaimsPaid;
    ClaimsApart(s.v, w.v);
  }

  lemma RefreshClaims(s: World, e: Entry, cb: seq<Action>, accepted: bool)
    requires e.RefreshCall? && ClaimsPaid(s.v)
    ensures ClaimsPaid(Exec(s, Enter(e, cb, accepted)).w.v)
  {
    hide Prove, ClaimsPaid, ExecAll;
    if Prove(s.v, s.c, e.verifier, 0, e.proof, e.att).Some? {
      ProveAppends(s.v, s.c, e.verifier, 0, e.proof, e.att);
      ProofClaimsNothing(s.v, Prove(s.v, s.c, e.verifier, 0, e.proof, e.att).value);
    }
  }

  /** An upgrade moves no money. */
  lemma UpgradeMovesNothing(s: World, caller: Address, identity: Word, impl: Address, p: Proof, att: AlphaAttestation)
    ensures var w := UpgradeTo(s, caller, identity, impl, p, att).w;
            w.v.k == s.v.k && w.v.paid == s.v.paid && w.sent == s.sent && w.c == s.c
  {
    hide Apply, Verifies, AuthoriseUpgrade, UpgradeProofNew, Claimable;
  }

  // ------------------------------------------------------------------ what was sent

  ghost predicate SentFor(sent: seq<Transfer>, cause: Cause) {
    exists n :: 0 <= n < |sent| && sent[n].cause == cause
  }

  /** A transfer is due: what its payout owes after its fee, a whole refund after its window, or native fees. */
  ghost predicate Due(s: World, x: Transfer) {
    && x.amount > 0 && x.at <= s.c.now
    && match x.cause
       case Paying(i) =>
         && i < |s.v.paid| && s.v.paid[i].gross - s.v.paid[i].fee == x.amount
         && s.v.paid[i].token == x.token && s.v.paid[i].to == x.to
       case Refunding(j) =>
         && j < |s.v.k.log| && s.v.k.log[j].Refunded? && s.v.k.log[j].id < |s.v.k.deposits|
         && RefundOf(s.v.k.deposits[s.v.k.log[j].id], x)
       case Distributing(j) =>
         && j < |s.v.k.log| && s.v.k.log[j].FeesDistributed? && x.token == NATIVE
         && s.v.k.log[j].token == NATIVE && s.v.k.log[j].amount == x.amount
  }

  /** All of the deposit, to its funder, after its window. */
  predicate RefundOf(d: Deposit, x: Transfer) {
    x.token == d.token && x.to == d.funder && x.amount == d.amount && x.at > d.fundedAt + d.window
  }

  /** What the records say must have been sent. */
  ghost predicate Owes(s: World, cause: Cause) {
    match cause
    case Paying(i) => i < |s.v.paid| && s.v.paid[i].gross != s.v.paid[i].fee
    case Refunding(j) => j < |s.v.k.log| && s.v.k.log[j].Refunded?
    case Distributing(j) =>
      j < |s.v.k.log| && s.v.k.log[j].FeesDistributed? && s.v.k.log[j].token == NATIVE && s.v.k.log[j].amount != 0
  }

  /** Each transfer is due, no two for the same cause, and whatever is owed was sent. */
  ghost predicate Settled(s: World) {
    && (forall n :: 0 <= n < |s.sent| ==> Due(s, s.sent[n]))
    && (forall m, n :: 0 <= m < n < |s.sent| ==> s.sent[m].cause != s.sent[n].cause)
    && (forall cause :: Owes(s, cause) ==> SentFor(s.sent, cause))
  }

  /** Records keep everything but the mark that they are consumed. */
  ghost predicate Kept(ds: seq<Deposit>, ds': seq<Deposit>) {
    && |ds| <= |ds'|
    && forall i :: 0 <= i < |ds| ==> ds'[i] == ds[i].(consumed := ds'[i].consumed)
  }

  /** The records only grow. */
  ghost predicate Grown(s: World, w: World) {
    && Kept(s.v.k.deposits, w.v.k.deposits) && s.v.k.log <= w.v.k.log && s.v.paid <= w.v.paid && s.c.now <= w.c.now
  }

  lemma DueLater(s: World, w: World, x: Transfer)
    requires Due(s, x) && Grown(s, w)
    ensures Due(w, x)
  {
  }

  /** What a step owes beyond what was owed before. */
  ghost predicate OwesOnly(s: World, w: World, causes: set<Cause>) {
    forall cause :: Owes(w, cause) ==> Owes(s, cause) || cause in causes
  }

  /** A step that owes nothing new and sends nothing. */
  lemma SettledQuietly(s: World, w: World)
    requires Settled(s) && Grown(s, w) && w.sent == s.sent && OwesOnly(s, w, {})
    ensures Settled(w)
  {
    hide Due, Grown, Owes;
    forall n | 0 <= n < |w.sent|
      ensures Due(w, w.sent[n])
    {
      DueLater(s, w, s.sent[n]);
    }
  }

  /** A step that owes one thing and sends it. */
  lemma SettledBy(s: World, w: World, x: Transfer)
    requires Settled(s) && Grown(s, w) && w.sent == s.sent + [x] && Due(w, x) && OwesOnly(s, w, {x.cause})
    requires forall n :: 0 <= n < |s.sent| ==> s.sent[n].cause != x.cause
    ensures Settled(w)
  {
    hide Due, Grown, Owes;
    forall n | 0 <= n < |w.sent|
      ensures Due(w, w.sent[n])
    {
      if n < |s.sent| {
        DueLater(s, w, s.sent[n]);
      }
    }
    forall cause | Owes(w, cause)
      ensures SentFor(w.sent, cause)
    {
      if cause == x.cause {
        assert w.sent[|s.sent|].cause == cause;
      } else {
        var n :| 0 <= n < |s.sent| && s.sent[n].cause == cause;
        assert w.sent[n].cause == cause;
      }
    }
  }

  /** A cause beyond the present records has not been sent for. */
  lemma FreshCause(s: World, cause: Cause)
    requires Settled(s)
    requires match cause
             case Paying(i) => i >= |s.v.paid|
             case Refunding(j) => j >= |s.v.k.log|
             case Distributing(j) => j >= |s.v.k.log|
    ensures forall n :: 0 <= n < |s.sent| ==> s.sent[n].cause != cause
  {
    forall n | 0 <= n < |s.sent|
      ensures s.sent[n].cause != cause
    {
      assert Due(s, s.sent[n]);
    }
  }

  lemma RefundSettles(s: World, w: World, id: nat)
    requires Settled(s) && id < |s.v.k.deposits| && MayRefund(s, s.v.k.deposits[id].funder, id)
    requires RefundDone(s, w, id) && s.c.now <= w.c.now && s.v.k.deposits[id].amount > 0
    ensures Settled(w)
  {
    var x := w.sent[|s.sent|];
    FreshCause(s, x.cause);
    assert Grown(s, w);
    SettledBy(s, w, x);
  }

  lemma SweepSettles(s: World, e: Entry, w: World)
    requires Settled(s) && Pays(e) && !e.RefundCall? && SweepDone(s, e, w) && s.c.now <= w.c.now
    ensures Settled(w)
  {
    hide Settled, Wanted, SurplusDue, OpenSum, OpenFees, ClaimOf;
    var p := w.v.paid[|s.v.paid|];
    SweepGrows(s, e, w);
    SweepOwes(s, e, w);
    if p.gross == p.fee {
      SettledQuietly(s, w);
    } else {
      FreshCause(s, Paying(|s.v.paid|));
      SettledBy(s, w, w.sent[|s.sent|]);
    }
  }

  lemma SweepGrows(s: World, e: Entry, w: World)
    requires Pays(e) && !e.RefundCall? && SweepDone(s, e, w) && s.c.now <= w.c.now
    ensures Grown(s, w)
  {
    hide Wanted, SurplusDue, OpenSum, OpenFees, ClaimOf;
  }

  lemma SweepOwes(s: World, e: Entry, w: World)
    requires Pays(e) && !e.RefundCall? && SweepDone(s, e, w)
    ensures var p := w.v.paid[|s.v.paid|]; OwesOnly(s, w, if p.gross == p.fee then {} else {Paying(|s.v.paid|)})
  {
    hide Wanted, SurplusDue, OpenSum, OpenFees, OnlyConsumed;
  }

  lemma FundSettles(s: World, e: Entry, w: World)
    requires Settled(s) && e.FundCall? && FundDone(s, e, w)
    ensures Settled(w)
  {
    hide Settled, RateOf;
    assert forall i :: 0 <= i < |s.v.k.deposits| ==> w.v.k.deposits[i] == w.v.k.deposits[..|s.v.k.deposits|][i];
    SettledQuietly(s, w);
  }

  lemma DistributionSettles(s: World, e: Entry, w: World, amount: int)
    requires Settled(s) && e.WithdrawFeesCall? && DistributeDone(s, e, w, amount)
    requires Get(s.v.k.feesOwed, (e.verifier, e.token)) > 0
    requires e.token == NATIVE ==> amount == Get(s.v.k.feesOwed, (e.verifier, e.token))
    ensures Settled(w)
  {
    hide Settled;
    if e.token == NATIVE {
      var x := w.sent[|s.sent|];
      FreshCause(s, x.cause);
      SettledBy(s, w, x);
    } else {
      SettledQuietly(s, w);
    }
  }

  /** Only the clock and history may have moved. */
  lemma MoneylessSettles(s: World, w: World)
    requires Settled(s) && w.v.k == s.v.k && w.v.paid == s.v.paid && w.sent == s.sent && s.c.now <= w.c.now
    ensures Settled(w)
  {
    hide Settled;
    SettledQuietly(s, w);
  }

  lemma EnterSettles(s: World, e: Entry, cb: seq<Action>, accepted: bool)
    requires Inv(s) && Reachable(s) && Settled(s)
    ensures Settled(Exec(s, Enter(e, cb, accepted)).w)
  {
    hide Inv, Exec, Settled, Payment, FundDone, DistributeDone, RefundDone, SweepDone, MayDeposit, Reachable;
    var r := Exec(s, Enter(e, cb, accepted));
    if Pays(e) {
      PaymentCall(s, e, cb, accepted);
      if e.RefundCall? {
        RefundsExactlyWhen(s, e.caller, e.id, cb, accepted);
        if r.ok {
          AmountsPositive(s, e.id);
          RefundSettles(s, r.w, e.id);
        }
      } else {
        SweepsDo(s, e, cb, accepted);
        if r.ok {
          SweepSettles(s, e, r.w);
        }
      }
    } else if e.FundCall? {
      FundsExactlyWhen(s, e, cb, accepted);
      if r.ok {
        FundSettles(s, e, r.w);
      }
    } else if e.WithdrawFeesCall? {
      DistributesExactlyWhen(s, e, cb, accepted);
      OwedIsHeld(s, e.verifier, e.token);
      if r.ok && Get(s.v.k.feesOwed, (e.verifier, e.token)) != 0 {
        DistributionSettles(s, e, r.w, Cost(s, e, cb));
      }
    } else {
      RefreshSettles(s, e, cb, accepted);
    }
  }

  lemma RefreshSettles(s: World, e: Entry, cb: seq<Action>, accepted: bool)
    requires e.RefreshCall? && Settled(s)
    ensures Settled(Exec(s, Enter(e, cb, accepted)).w)
  {
    hide Prove, Settled, ExecAll;
    if Prove(s.v, s.c, e.verifier, 0, e.proof, e.att).Some? {
      ProveAppends(s.v, s.c, e.verifier, 0, e.proof, e.att);
    }
    MoneylessSettles(s, Exec(s, Enter(e, cb, accepted)).w);
  }

  lemma EnvSettles(s: World, o: Outside)
    requires Inv(s) && Settled(s)
    ensures Settled(Exec(s, Env(o)).w)
  {
    hide VaultInv, CtxOk, OutsideStep, Settled;
    OutsideForward(s, o);
    MoneylessSettles(s, Exec(s, Env(o)).w);
  }

  // ------------------------------------------------------------------ every reachable state

  lemma ExecSettles(s: World, a: Action)
    requires Inv(s) && Reachable(s) && ClaimsPaid(s.v) && Settled(s)
    ensures ClaimsPaid(Exec(s, a).w.v) && Settled(Exec(s, a).w)
  {
    hide Inv, ClaimsPaid, Settled, Front, Back, OutsideStep, UpgradeTo, Reachable;
    match a
    case Env(o) => EnvSettles(s, o);
    case Upgrade(caller, identity, impl, p, att) =>
      UpgradeMovesNothing(s, caller, identity, impl, p, att);
      ProofClaimsNothing(s.v, Exec(s, a).w.v);
      MoneylessSettles(s, Exec(s, a).w);
    case Enter(e, cb, accepted) =>
      EnterClaims(s, e, cb, accepted);
      EnterSettles(s, e, cb, accepted);
  }

  lemma {:induction false} RunSettles(s: World, run: seq<Action>)
    requires Reachable(s) && ClaimsPaid(s.v) && Settled(s)
    ensures ClaimsPaid(ExecAll(s, run).v) && Settled(ExecAll(s, run))
    decreases |run|
  {
    hide Inv, Exec, ClaimsPaid, Settled, Reachable;
    if run != [] {
      ReachableInv(s);
      ExecSettles(s, run[0]);
      ReachableOn(s, [run[0]]);
      assert ExecAll(s, [run[0]]) == ExecAll(Exec(s, run[0]).w, []) == Exec(s, run[0]).w;
      RunSettles(Exec(s, run[0]).w, run[1..]);
    }
  }

  lemma ReachableSettled(s: World)
    requires Reachable(s)
    ensures ClaimsPaid(s.v) && Settled(s) && AllHonest(s.v.k)
  {
    hide Initial, Inv, ClaimsPaid, Settled;
    var s0: World, run: seq<Action> :| Initial(s0) && s == ExecAll(s0, run);
    FreshSettled(s0);
    assert s0 == ExecAll(s0, []);
    RunSettles(s0, run);
    ReachableInv(s);
    InvHonest(s);
  }

  lemma FreshSettled(s: World)
    requires Initial(s)
    ensures ClaimsPaid(s.v) && Settled(s)
  {
  }

  lemma InvHonest(s: World)
    requires Inv(s)
    ensures AllHonest(s.v.k)
  {
    hide CacheInv, Authorised, PaidInv, PaidAddsUp, CtxOk, Totals, Indexed, Recorded;
  }

  /** Event j is one of those payout i pays for. */
  predicate Covers(paid: seq<Payout>, i: nat, j: nat) {
    i < |paid| && Start(paid, i) <= j < paid[i].events
  }

  /** Payouts follow each other in the log. */
  ghost predicate Ordered(paid: seq<Payout>) {
    forall i :: 0 <= i < |paid| ==> Start(paid, i) <= paid[i].events
  }

  lemma PayoutsOrdered(v: Vault)
    requires ClaimsPaid(v)
    ensures Ordered(v.paid) && Unclaimed(v.k.log, Start(v.paid, |v.paid|))
    ensures forall i :: 0 <= i < |v.paid| ==> PaysFor(v.k, Start(v.paid, i), v.paid[i])
  {
    hide Between;
  }

  lemma {:induction false} Covered(paid: seq<Payout>, j: nat, n: nat)
    requires n <= |paid| && j < Start(paid, n)
    ensures exists i: nat :: i < n && Covers(paid, i, j)
  {
    if n > 0 && j < Start(paid, n - 1) {
      Covered(paid, j, n - 1);
      var i: nat :| i < n - 1 && Covers(paid, i, j);
      assert i < n;
    } else if n > 0 {
      assert Covers(paid, n - 1, j);
    }
  }

  lemma {:induction false} StartsGrow(paid: seq<Payout>, i: nat, n: nat)
    requires Ordered(paid) && i <= n <= |paid|
    ensures Start(paid, i) <= Start(paid, n)
    decreases n
  {
    if i < n {
      StartsGrow(paid, i, n - 1);
    }
  }

  lemma CoveredOnce(paid: seq<Payout>, i: nat, n: nat, j: nat)
    requires Ordered(paid) && Covers(paid, i, j) && Covers(paid, n, j)
    ensures i == n
  {
    if i < n {
      StartsGrow(paid, i + 1, n);
    } else if n < i {
      StartsGrow(paid, n + 1, i);
    }
  }

  /**
   Each claim belongs to exactly one payout, and that payout is of the deposit's own verifier, constraint and
   token, and goes where the claim says.
   */
  lemma ClaimsBelongToOnePayout(s: World, j: nat)
    requires Reachable(s) && j < |s.v.k.log| && s.v.k.log[j].Claimed?
    ensures exists i: nat :: Covers(s.v.paid, i, j)
    ensures forall i: nat, n: nat :: Covers(s.v.paid, i, j) && Covers(s.v.paid, n, j) ==> i == n
    ensures forall i: nat :: Covers(s.v.paid, i, j) ==> ClaimedFor(s.v.k.deposits, s.v.k.log[j], s.v.paid[i])
  {
    hide Settled, Reachable, AllHonest, PaysFor, ClaimsPaid, ClaimedFor, Covers, Ordered;
    ReachableSettled(s);
    PayoutsOrdered(s.v);
    Covered(s.v.paid, j, |s.v.paid|);
    forall i: nat, n: nat | Covers(s.v.paid, i, j) && Covers(s.v.paid, n, j)
      ensures i == n
    {
      CoveredOnce(s.v.paid, i, n, j);
    }
    forall i: nat | Covers(s.v.paid, i, j)
      ensures ClaimedFor(s.v.k.deposits, s.v.k.log[j], s.v.paid[i])
    {
      CoveredIsClaimed(s.v, i, j);
    }
  }

  lemma CoveredIsClaimed(v: Vault, i: nat, j: nat)
    requires Covers(v.paid, i, j) && PaysFor(v.k, Start(v.paid, i), v.paid[i])
    ensures j < |v.k.log| && ClaimedFor(v.k.deposits, v.k.log[j], v.paid[i])
  {
    hide Between;
  }

  /** The payee of a claimed deposit, by the proofs accepted when its payout was made. */
  ghost predicate RightPayee(v: Vault, d: Deposit, to: Address, p: Payout) {
    && p.seen <= |v.ca.hist| && p.to == to
    && (d.constraint == 0 ==>
          exists n: nat :: IsBest(v.ca.hist[..p.seen], d.verifier, n) && v.ca.hist[n].wallet == to)
    && (d.constraint != 0 ==>
          && p.seen > 0
          && var r := v.ca.hist[p.seen - 1];
             && r.verifier == d.verifier && r.wallet == to
             && r.origin.evidence == d.constraint && r.origin.identity == v.salt)
  }

  /**
   So a claimed deposit of a default bucket went to the wallet of the best proof accepted by then under the
   deposit's own verifier, and one with a constraint to the wallet of the proof that was presented for this
   vault's identity, under that verifier, with evidence for that constraint.
   */
  lemma ClaimedDepositsWentRight(s: World, j: nat)
    requires Reachable(s) && j < |s.v.k.log| && s.v.k.log[j].Claimed?
    ensures s.v.k.log[j].id < |s.v.k.deposits|
    ensures exists i: nat :: Covers(s.v.paid, i, j)
                             && RightPayee(s.v, s.v.k.deposits[s.v.k.log[j].id], s.v.k.log[j].to, s.v.paid[i])
  {
    hide Reachable, BooksInv, CacheInv, Authorised, PaidAddsUp, CtxOk, Solvent;
    ClaimsBelongToOnePayout(s, j);
    ReachableInv(s);
    var i: nat :| Covers(s.v.paid, i, j);
    assert ClaimedFor(s.v.k.deposits, s.v.k.log[j], s.v.paid[i]);
    assert PaidRight(s.v.paid[i], s.v.ca.hist);
    var p := s.v.paid[i];
    if p.constraint == 0 {
      var n: nat :| PaidBest(p, s.v.ca.hist, n);
      assert IsBest(s.v.ca.hist[..p.seen], p.verifier, n);
    }
  }

  /** What each payout pays and charges: its claims and their fees, and untracked funds at the rate quoted then. */
  lemma PayoutCharges(s: World, i: nat)
    requires Reachable(s) && i < |s.v.paid|
    ensures PaysFor(s.v.k, Start(s.v.paid, i), s.v.paid[i])
  {
    hide Settled, Reachable, AllHonest, PaysFor;
    ReachableSettled(s);
  }

  /** Over every run and token: all fees charged are those of the claims and those on untracked funds. */
  lemma FeesAddUp(s: World, t: Address)
    requires Reachable(s)
    ensures PaidSum(s.v.paid, t, Fees) == Flow(s.v.k.log, t, ClaimFees) + PaidSum(s.v.paid, t, SurplusFees)
  {
    hide Settled, Reachable, AllHonest, ClaimsPaid;
    ReachableSettled(s);
    FeesOfClaims(s.v, t);
  }

  /** A claim is of the whole deposit, and its fee is the deposit's recorded rate of it, rounded down. */
  lemma ClaimsChargeTheirRate(s: World, j: nat)
    requires Reachable(s) && j < |s.v.k.log| && s.v.k.log[j].Claimed?
    ensures var e := s.v.k.log[j];
            && e.id < |s.v.k.deposits|
            && var d := s.v.k.deposits[e.id];
               && e.amount == d.amount && e.token == d.token
               && e.fee * 10000 <= d.amount * d.feeBps < (e.fee + 1) * 10000
  {
    hide Settled, Reachable, ClaimsPaid;
    ReachableSettled(s);
    assert Honest(s.v.k.deposits, s.v.k.log[j]);
  }

  /** Every refund was sent once: all of the deposit, to its funder, after its window. */
  lemma RefundsReachFunders(s: World, j: nat)
    requires Reachable(s) && j < |s.v.k.log| && s.v.k.log[j].Refunded?
    ensures s.v.k.log[j].id < |s.v.k.deposits|
    ensures exists n: nat :: OnlyFor(s.sent, n, Refunding(j))
                             && RefundOf(s.v.k.deposits[s.v.k.log[j].id], s.sent[n])
  {
    hide Reachable, AllHonest, ClaimsPaid;
    ReachableSettled(s);
    assert Owes(s, Refunding(j));
    var n :| 0 <= n < |s.sent| && s.sent[n].cause == Refunding(j);
    assert Due(s, s.sent[n]);
    assert OnlyFor(s.sent, n, Refunding(j));
  }

  /** Transfer n is the one and only for its cause. */
  predicate OnlyFor(sent: seq<Transfer>, n: nat, cause: Cause) {
    && n < |sent| && sent[n].cause == cause
    && forall m :: 0 <= m < |sent| && sent[m].cause == cause ==> m == n
  }

  /** Every payout was sent once, to its payee, less its fee. */
  lemma PayoutsAreSent(s: World, i: nat)
    requires Reachable(s) && i < |s.v.paid| && s.v.paid[i].gross != s.v.paid[i].fee
    ensures var p := s.v.paid[i];
            exists n: nat :: && OnlyFor(s.sent, n, Paying(i)) && s.sent[n].token == p.token && s.sent[n].to == p.to
                             && s.sent[n].amount == p.gross - p.fee
  {
    hide Reachable, AllHonest, ClaimsPaid;
    ReachableSettled(s);
    assert Owes(s, Paying(i));
    var n :| 0 <= n < |s.sent| && s.sent[n].cause == Paying(i);
    assert Due(s, s.sent[n]);
    assert OnlyFor(s.sent, n, Paying(i));
  }

  /** And nothing else was ever sent. */
  lemma OnlyDueTransfers(s: World, n: nat)
    requires Reachable(s) && n < |s.sent|
    ensures Due(s, s.sent[n]) && OnlyFor(s.sent, n, s.sent[n].cause)
  {
    hide Reachable, AllHonest, ClaimsPaid, Due;
    ReachableSettled(s);
  }

  /**
   Exactly once: in every reachable state a deposit has left the vault once if it is marked consumed and never
   otherwise. A refund was one transfer of all of it to its funder after its window; a claim was of all of it, at
   the fee fixed at funding, in one payout of its own bucket to the payee the claim names. Per token, credits are
   refunds, gross claims and what is still tracked.
   */
  lemma ExactlyOnce(s: World, id: nat, j: nat, t: Address)
    requires Reachable(s)
    ensures Exits(s.v.k.log, id) == if id < |s.v.k.deposits| && s.v.k.deposits[id].consumed then 1 else 0
    ensures j < |s.v.k.log| ==> Honest(s.v.k.deposits, s.v.k.log[j])
    ensures j < |s.v.k.log| && s.v.k.log[j].Refunded? ==>
              s.v.k.log[j].id < |s.v.k.deposits|
              && exists n: nat :: OnlyFor(s.sent, n, Refunding(j))
                                  && RefundOf(s.v.k.deposits[s.v.k.log[j].id], s.sent[n])
    ensures j < |s.v.k.log| && s.v.k.log[j].Claimed? ==>
              exists i: nat :: Covers(s.v.paid, i, j) && ClaimedFor(s.v.k.deposits, s.v.k.log[j], s.v.paid[i])
    ensures Flow(s.v.k.log, t, Credits)
            == Flow(s.v.k.log, t, Refunds) + Flow(s.v.k.log, t, Claims) + Total(s.v.k.deposits, OfToken(t))
  {
    hide Reachable, RefundOf, ClaimedFor, Honest, OnlyFor, Covers, Inv;
    ReachableInv(s);
    LedgerHolds(s, id, j, t);
    if j < |s.v.k.log| && s.v.k.log[j].Refunded? {
      RefundsReachFunders(s, j);
    }
    if j < |s.v.k.log| && s.v.k.log[j].Claimed? {
      ClaimsBelongToOnePayout(s, j);
    }
  }

  lemma LedgerHolds(s: World, id: nat, j: nat, t: Address)
    requires Inv(s)
    ensures Exits(s.v.k.log, id) == if id < |s.v.k.deposits| && s.v.k.deposits[id].consumed then 1 else 0
    ensures j < |s.v.k.log| ==> Honest(s.v.k.deposits, s.v.k.log[j])
    ensures Flow(s.v.k.log, t, Credits)
            == Flow(s.v.k.log, t, Refunds) + Flow(s.v.k.log, t, Claims) + Total(s.v.k.deposits, OfToken(t))
  {
    hide CacheInv, Authorised, PaidInv, PaidAddsUp, Indexed, Recorded, Solvent, CtxOk;
    assert Get(s.v.k.tracked, t) == Total(s.v.k.deposits, OfToken(t));
  }

  // ------------------------------------------------------------------ the balance is what was not sent

  function SentSum(sent: seq<Transfer>, t: Address): nat {
    if sent == [] then 0
    else SentSum(sent[..|sent| - 1], t) + (if sent[|sent| - 1].token == t then sent[|sent| - 1].amount else 0)
  }

  lemma SentPushed(sent: seq<Transfer>, x: Transfer, t: Address)
    ensures SentSum(sent + [x], t) == SentSum(sent, t) + (if x.token == t then x.amount else 0)
  {
    assert (sent + [x])[..|sent|] == sent;
  }

  /** What a token's policy pulled by itself. */
  function Pulled(s: World, t: Address): nat {
    if t == NATIVE then 0 else Flow(s.v.k.log, t, FeesOut)
  }

  /** Everything the records say has left was sent, but for what policies pulled. */
  ghost predicate Tallies(s: World, t: Address) {
    SentSum(s.sent, t) + Pulled(s, t) == Left(s.v, t)
  }

  lemma RefundTallies(s: World, w: World, id: nat, t: Address)
    requires Tallies(s, t) && RefundDone(s, w, id)
    ensures Tallies(w, t)
  {
    hide Flow, PaidSum, SentSum;
    FlowPushed(s.v.k.log, w.v.k.log[|s.v.k.log|], t, Refunds);
    FlowPushed(s.v.k.log, w.v.k.log[|s.v.k.log|], t, FeesOut);
    SentPushed(s.sent, w.sent[|s.sent|], t);
  }

  lemma {:induction false} ClaimsLeaveNothing(k: Books, k': Books, b: Bucket, to: Address, t: Address)
    requires LogsClaims(k, k', b, to)
    ensures Flow(k'.log, t, Refunds) == Flow(k.log, t, Refunds) && Flow(k'.log, t, FeesOut) == Flow(k.log, t, FeesOut)
    decreases |k'.log|
  {
    if |k'.log| == |k.log| {
      assert k'.log == k.log;
    } else {
      var init := k'.log[..|k'.log| - 1];
      ClaimsLeaveNothing(k, k'.(log := init), b, to, t);
    }
  }

  lemma SweepTallies(s: World, e: Entry, w: World, t: Address)
    requires Tallies(s, t) && Pays(e) && !e.RefundCall? && SweepDone(s, e, w)
    ensures Tallies(w, t)
  {
    hide Flow, PaidSum, SentSum, Wanted, SurplusDue, OpenSum, OpenFees, OnlyConsumed, LogsClaims;
    var p := w.v.paid[|s.v.paid|];
    ClaimsLeaveNothing(s.v.k, w.v.k, Target(s, e), p.to, t);
    assert w.v.paid == s.v.paid + [p];
    PaidSumPushed(s.v.paid, p, t, Gross);
    PaidSumPushed(s.v.paid, p, t, Fees);
    if p.gross != p.fee {
      assert w.sent == s.sent + [w.sent[|s.sent|]];
      SentPushed(s.sent, w.sent[|s.sent|], t);
    } else {
      assert w.sent == s.sent;
    }
  }

  lemma FundTallies(s: World, e: Entry, w: World, t: Address)
    requires Tallies(s, t) && e.FundCall? && FundDone(s, e, w)
    ensures Tallies(w, t)
  {
    hide Flow, PaidSum, SentSum, RateOf;
    FlowPushed(s.v.k.log, w.v.k.log[|s.v.k.log|], t, Refunds);
    FlowPushed(s.v.k.log, w.v.k.log[|s.v.k.log|], t, FeesOut);
  }

  lemma DistributionTallies(s: World, e: Entry, w: World, amount: int, t: Address)
    requires Tallies(s, t) && e.WithdrawFeesCall? && DistributeDone(s, e, w, amount)
    requires e.token == NATIVE ==> amount == Get(s.v.k.feesOwed, (e.verifier, e.token))
    ensures Tallies(w, t)
  {
    hide Flow, PaidSum, SentSum;
    FlowPushed(s.v.k.log, w.v.k.log[|s.v.k.log|], t, Refunds);
    FlowPushed(s.v.k.log, w.v.k.log[|s.v.k.log|], t, FeesOut);
    if e.token == NATIVE {
      assert w.sent == s.sent + [w.sent[|s.sent|]];
      SentPushed(s.sent, w.sent[|s.sent|], t);
    } else {
      assert w.sent == s.sent;
    }
  }

  lemma EnterTallies(s: World, e: Entry, cb: seq<Action>, accepted: bool, t: Address)
    requires Reachable(s) && Tallies(s, t)
    ensures Tallies(Exec(s, Enter(e, cb, accepted)).w, t)
  {
    hide Inv, Exec, Tallies, Payment, FundDone, DistributeDone, RefundDone, SweepDone, MayDeposit, Reachable;
    ReachableInv(s);
    var r := Exec(s, Enter(e, cb, accepted));
    if e.RefundCall? {
      RefundsExactlyWhen(s, e.caller, e.id, cb, accepted);
      if r.ok {
        RefundTallies(s, r.w, e.id, t);
      }
    } else if Pays(e) {
      SweepsDo(s, e, cb, accepted);
      if r.ok {
        SweepTallies(s, e, r.w, t);
      }
    } else if e.FundCall? {
      FundsExactlyWhen(s, e, cb, accepted);
      if r.ok {
        FundTallies(s, e, r.w, t);
      }
    } else if e.WithdrawFeesCall? {
      DistributesExactlyWhen(s, e, cb, accepted);
      if r.ok && Get(s.v.k.feesOwed, (e.verifier, e.token)) != 0 {
        DistributionTallies(s, e, r.w, Cost(s, e, cb), t);
      }
    } else {
      RefreshTallies(s, e, cb, accepted, t);
    }
  }

  lemma RefreshTallies(s: World, e: Entry, cb: seq<Action>, accepted: bool, t: Address)
    requires e.RefreshCall? && Tallies(s, t)
    ensures Tallies(Exec(s, Enter(e, cb, accepted)).w, t)
  {
    hide Prove, ExecAll, Flow, PaidSum, SentSum;
    if Prove(s.v, s.c, e.verifier, 0, e.proof, e.att).Some? {
      ProveAppends(s.v, s.c, e.verifier, 0, e.proof, e.att);
    }
  }

  lemma UpgradeTallies(s: World, caller: Address, identity: Word, impl: Address, p: Proof, att: AlphaAttestation,
                       t: Address)
    requires Tallies(s, t)
    ensures Tallies(Exec(s, Upgrade(caller, identity, impl, p, att)).w, t)
  {
    hide UpgradeTo, Flow, PaidSum, SentSum;
    UpgradeMovesNothing(s, caller, identity, impl, p, att);
  }

  lemma EnvTallies(s: World, o: Outside, t: Address)
    requires Tallies(s, t)
    ensures Tallies(Exec(s, Env(o)).w, t)
  {
    hide OutsideStep, Flow, PaidSum, SentSum;
  }

  lemma ExecTallies(s: World, a: Action, t: Address)
    requires Reachable(s) && Tallies(s, t)
    ensures Tallies(Exec(s, a).w, t)
  {
    hide Exec, Reachable, Tallies;
    match a
    case Enter(e, cb, accepted) => EnterTallies(s, e, cb, accepted, t);
    case Upgrade(caller, identity, impl, p, att) => UpgradeTallies(s, caller, identity, impl, p, att, t);
    case Env(o) => EnvTallies(s, o, t);
  }

  lemma {:induction false} RunTallies(s: World, run: seq<Action>, t: Address)
    requires Reachable(s) && Tallies(s, t)
    ensures Tallies(ExecAll(s, run), t)
    decreases |run|
  {
    hide Exec, Reachable, Tallies;
    if run != [] {
      ExecTallies(s, run[0], t);
      ReachableOn(s, [run[0]]);
      assert ExecAll(s, [run[0]]) == ExecAll(Exec(s, run[0]).w, []) == Exec(s, run[0]).w;
      RunTallies(Exec(s, run[0]).w, run[1..], t);
    }
  }

  /**
   Along any run from deployment a token's balance is what was there and came in, minus exactly the transfers
   the vault made and, for a token, what policies pulled of the fees owed to them.
   */
  lemma BalanceIsWhatWasNotSent(s0: World, run: seq<Action>, t: Address)
    requires Initial(s0)
    ensures var w := ExecAll(s0, run);
            Get(w.c.bal, t) == Get(s0.c.bal, t) + Inflows(s0, run, t) - SentSum(w.sent, t) - Pulled(w, t)
  {
    hide Inv, ExecAll, Inflows, CtxOk, Exec;
    BalanceIsAccounted(s0, run, t);
    EmptyRunIs(s0);
    assert Tallies(s0, t);
    RunTallies(s0, run, t);
  }

  lemma EmptyRunIs(s0: World)
    requires Initial(s0)
    ensures Reachable(s0)
  {
    assert ExecAll(s0, []) == s0;
  }

  // ------------------------------------------------------------------ splitting sweeps of untracked funds

  /** The untracked funds that payouts in a token took, one by one. */
  function Taken(paid: seq<Payout>, t: Address): seq<nat> {
    if paid == [] then []
    else
      var p := paid[|paid| - 1];
      Taken(paid[..|paid| - 1], t) + (if p.token == t && p.untracked > 0 then [p.untracked] else [])
  }

  lemma SumsPushed(us: seq<nat>, u: nat, bps: nat)
    ensures Sum(us + [u]) == Sum(us) + u && SplitFees(us + [u], bps) == SplitFees(us, bps) + u * bps / BPS
  {
    assert (us + [u])[..|us|] == us;
  }

  lemma {:induction false} TakenSums(paid: seq<Payout>, t: Address, bps: nat)
    requires forall m :: 0 <= m < |paid| && paid[m].token == t && paid[m].untracked > 0 ==> paid[m].rate == bps
    ensures PaidSum(paid, t, Surplus) == Sum(Taken(paid, t))
    ensures PaidSum(paid, t, SurplusFees) == SplitFees(Taken(paid, t), bps)
  {
    if paid != [] {
      var init, p := paid[..|paid| - 1], paid[|paid| - 1];
      TakenSums(init, t, bps);
      if p.token == t && p.untracked > 0 {
        assert p.rate == bps && Taken(paid, t) == Taken(init, t) + [p.untracked];
        SumsPushed(Taken(init, t), p.untracked, bps);
      } else {
        assert Taken(paid, t) == Taken(init, t);
      }
    }
  }

  /**
   Taking untracked funds in several sweeps at one rate instead of in one never charges more, and loses less than
   one unit for each extra sweep: of any stretch of the payouts made in any run.
   */
  lemma SplitSweepsLoseLittle(s: World, i: nat, n: nat, t: Address, bps: nat)
    requires Reachable(s) && i <= n <= |s.v.paid| && Taken(s.v.paid[i..n], t) != []
    requires forall m :: i <= m < n && s.v.paid[m].token == t && s.v.paid[m].untracked > 0 ==> s.v.paid[m].rate == bps
    ensures var paid := s.v.paid[i..n];
            PaidSum(paid, t, SurplusFees) <= PaidSum(paid, t, Surplus) * bps / BPS
              <= PaidSum(paid, t, SurplusFees) + |Taken(paid, t)| - 1
    ensures forall m :: i <= m < n ==> PaysFor(s.v.k, Start(s.v.paid, m), s.v.paid[m])
  {
    hide Reachable, PaysFor, Taken, PaidSum;
    forall m | i <= m < n
      ensures PaysFor(s.v.k, Start(s.v.paid, m), s.v.paid[m])
    {
      PayoutCharges(s, m);
    }
    TakenSums(s.v.paid[i..n], t, bps);
    SplittingLosesLessThanOneEach(Taken(s.v.paid[i..n], t), bps);
  }
}
