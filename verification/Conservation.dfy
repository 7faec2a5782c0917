/**
 Where the money went: over any run, with callbacks, each token's balance changes by exactly what came in
 from outside minus the refunds, the net payouts and the distributed fees that the records show.
 */
module Conservation {
  import opened Types
  import opened Books
  import opened OwnerCache
  import opened Vault
  import opened VaultProofs
  import opened System
  import opened SystemProofs

  /** Everything the records say has left in a token: refunds, payouts without their fees, distributed fees. */
  function Left(v: Vault, t: Address): int {
    Flow(v.k.log, t, Refunds) + Flow(v.k.log, t, FeesOut) + PaidSum(v.paid, t, Gross) - PaidSum(v.paid, t, Fees)
  }

  /**
   What an action brings in from outside, callbacks included: transfers, and what funding pulls or carries.
   Tokens that arrive while a policy pulls ERC-20 fees count only beyond what it pulled, since the vault
   books the distribution by the difference of its balances.
   */
  function Inflow(s: World, a: Action, t: Address): int
    decreases a
  {
    match a
    case Env(o) => Get(OutsideStep(s, o).bal, t) - Get(s.c.bal, t)
    case Upgrade(_, _, _, _, _) => 0
    case Enter(e, cb, accepted) =>
      if s.v.locked then 0
      else
        match Front(s, e)
        case Fail => 0
        case Done(_) => if e.FundCall? && e.token == t then e.amount else 0
        case Call(h) =>
          if !accepted || Back(s, e, ExecAll(h, cb)).None? then 0
          else
            var came := Inflows(h, cb, t);
            if e.FundCall? && e.token == t then came + e.received
            else if e.WithdrawFeesCall? && e.token == t && t != NATIVE then Max(0, came - e.pulled)
            else came
  }

  function Inflows(s: World, run: seq<Action>, t: Address): int
    decreases run
  {
    if run == [] then 0 else Inflow(s, run[0], t) + Inflows(Exec(s, run[0]).w, run[1..], t)
  }

  // ------------------------------------------------------------------ what operations record

  function Gone(k: Books, t: Address): int {
    Flow(k.log, t, Refunds) + Flow(k.log, t, FeesOut)
  }

  lemma ClaimedIsNotGone(k: Books, id: nat, to: Address, t: Address)
    requires id < |k.deposits|
    ensures Gone(Claim(k, id, to), t) == Gone(k, t)
  {
    var d := k.deposits[id];
    var e := Claimed(id, to, d.token, d.amount, ClaimFee(d));
    FlowPushed(k.log, e, t, Refunds);
    FlowPushed(k.log, e, t, FeesOut);
  }

  lemma {:induction false} WalkIsNotGone(k: Books, list: seq<nat>, from: nat, end: nat, to: Address, t: Address)
    requires end <= |list|
    ensures Gone(Walk(k, list, from, end, to).k, t) == Gone(k, t)
    decreases end
  {
    hide Gone, Claim;
    if from < end {
      WalkIsNotGone(k, list, from, end - 1, to, t);
      var w, id := Walk(k, list, from, end - 1, to), list[end - 1];
      if id < |w.k.deposits| {
        ClaimedIsNotGone(w.k, id, to, t);
      }
    }
  }

  lemma {:induction false} IdsAreNotGone(k: Books, b: Bucket, list: seq<nat>, n: nat, to: Address, t: Address)
    requires n <= |list|
    ensures ByIds(k, b, list, n, to).Some? ==> Gone(ByIds(k, b, list, n, to).value.k, t) == Gone(k, t)
  {
    hide Gone, Claim;
    if n > 0 {
      IdsAreNotGone(k, b, list, n - 1, to, t);
      if ByIds(k, b, list, n - 1, to).Some? {
        var w, id := ByIds(k, b, list, n - 1, to).value, list[n - 1];
        if id < |w.k.deposits| {
          ClaimedIsNotGone(w.k, id, to, t);
        }
      }
    }
  }

  lemma PageIsNotGone(k: Books, b: Bucket, limit: nat, to: Address, t: Address)
    ensures Gone(FromCursor(k, b, limit, to).k, t) == Gone(k, t)
  {
    hide Walk;
    var list, i := IdList(k, b), Cursor(k, b);
    WalkIsNotGone(k, list, i, PageEnd(|list|, i, limit), to, t);
  }

  /** Paying out records exactly the net amount as gone. */
  lemma PayLeaves(v: Vault, c: Ctx, ver: Address, constraint: Word, u: Address, to: Address, gross: nat, fee: nat,
                  untracked: nat, t: Address)
    ensures var o := Pay(v, c, ver, constraint, u, to, gross, fee, untracked);
            o.Out? ==>
              o.token == u && o.net == gross - fee && Left(o.v, t) == Left(v, t) + (if t == u then o.net else 0)
  {
    hide Flow, PaidSum;
    if fee <= gross {
      var p := Payout(ver, constraint, u, to, gross, fee, untracked, ver == c.f.defaultVerifier, |v.ca.hist|,
                      Quote(c, ver, u), |v.k.log|);
      PaidSumPushed(v.paid, p, t, Gross);
      PaidSumPushed(v.paid, p, t, Fees);
      FlowPushed(v.k.log, FeeAccrued(ver, u, fee), t, Refunds);
      FlowPushed(v.k.log, FeeAccrued(ver, u, fee), t, FeesOut);
    }
  }

  lemma PageLeaves(v: Vault, c: Ctx, b: Bucket, limit: nat, to: Address, more: nat, moreFee: nat, t: Address)
    ensures var w := FromCursor(v.k, b, limit, to);
            var o := Pay(v.(k := w.k), c, b.verifier, b.constraint, b.token, to, w.gross + more, w.fee + moreFee, more);
            o.Out? ==> o.token == b.token && Left(o.v, t) == Left(v, t) + (if t == b.token then o.net else 0)
  {
    hide FromCursor, Pay, Flow, PaidSum;
    var w := FromCursor(v.k, b, limit, to);
    PageIsNotGone(v.k, b, limit, to, t);
    PayLeaves(v.(k := w.k), c, b.verifier, b.constraint, b.token, to, w.gross + more, w.fee + moreFee, more, t);
  }

  lemma ListLeaves(v: Vault, c: Ctx, b: Bucket, ids: seq<nat>, to: Address, t: Address)
    requires ByIds(v.k, b, ids, |ids|, to).Some?
    ensures var w := ByIds(v.k, b, ids, |ids|, to).value;
            var o := Pay(v.(k := w.k), c, b.verifier, b.constraint, b.token, to, w.gross, w.fee, 0);
            o.Out? ==> o.token == b.token && Left(o.v, t) == Left(v, t) + (if t == b.token then o.net else 0)
  {
    hide ByIds, Pay, Flow, PaidSum;
    var w := ByIds(v.k, b, ids, |ids|, to).value;
    IdsAreNotGone(v.k, b, ids, |ids|, to, t);
    PayLeaves(v.(k := w.k), c, b.verifier, b.constraint, b.token, to, w.gross, w.fee, 0, t);
  }

  lemma DefaultLeaves(v: Vault, c: Ctx, ver: Address, u: Address, limit: nat, t: Address)
    ensures var o := SweepDefault(v, c, ver, u, limit);
            o.Out? ==> o.token == u && Left(o.v, t) == Left(v, t) + (if t == u then o.net else 0)
  {
    hide FromCursor, Pay, Left, Loose, LooseFee, OwnerOf;
    if OwnerOf(v.ca, c, ver).Some? && Loose(v, c, ver, u).Some?
      && LooseFee(c, ver, u, Loose(v, c, ver, u).value).Some? {
      var more := Loose(v, c, ver, u).value;
      PageLeaves(v, c, Bucket(ver, 0, u), limit, OwnerOf(v.ca, c, ver).value, more, LooseFee(c, ver, u, more).value, t);
    }
  }

  lemma UntrackedLeaves(v: Vault, c: Ctx, u: Address, t: Address)
    ensures var o := SweepUntracked(v, c, u);
            o.Out? ==> o.token == u && Left(o.v, t) == Left(v, t) + (if t == u then o.net else 0)
  {
    hide Pay, Left, Untracked, LooseFee, OwnerOf;
    var ver := c.f.defaultVerifier;
    if OwnerOf(v.ca, c, ver).Some? && Untracked(v.k, c, u).Some?
      && LooseFee(c, ver, u, Untracked(v.k, c, u).value).Some? {
      var g := Untracked(v.k, c, u).value;
      PayLeaves(v, c, ver, 0, u, OwnerOf(v.ca, c, ver).value, g, LooseFee(c, ver, u, g).value, g, t);
    }
  }

  lemma RefundLeaves(v: Vault, c: Ctx, caller: Address, id: nat, t: Address)
    ensures var o := RefundDeposit(v, c, caller, id);
            o.Out? ==> Left(o.v, t) == Left(v, t) + (if t == o.token then o.net else 0)
  {
    hide Flow, PaidSum;
    if id < |v.k.deposits| {
      var d := v.k.deposits[id];
      FlowPushed(v.k.log, Refunded(id, d.funder, d.token, d.amount), t, Refunds);
      FlowPushed(v.k.log, Refunded(id, d.funder, d.token, d.amount), t, FeesOut);
    }
  }

  /** Every payment the vault makes records its net amount as gone. */
  lemma PaymentLeaves(s: World, e: Entry, t: Address)
    ensures var o := Payment(s, e);
            o.Out? ==> Left(o.v, t) == Left(s.v, t) + (if t == o.token then o.net else 0)
  {
    hide Left, Pay, FromCursor, ByIds, OwnerOf, RefundDeposit, SweepDefault, SweepUntracked, Prove;
    match e
    case RefundCall(caller, id) => RefundLeaves(s.v, s.c, caller, id, t);
    case RefreshAndSweepCall(ver, p, u, limit, att) =>
      ProvenIsApart(s, ver, 0, p, att, t);
      if Prove(s.v, s.c, ver, 0, p, att).Some? {
        DefaultLeaves(Prove(s.v, s.c, ver, 0, p, att).value, s.c, ver, u, limit, t);
      }
    case SweepCall(ver, u, limit) => DefaultLeaves(s.v, s.c, ver, u, limit, t);
    case SweepUntrackedCall(u) => UntrackedLeaves(s.v, s.c, u, t);
    case SweepDepositsCall(ver, u, ids) =>
      if OwnerOf(s.v.ca, s.c, ver).Some? {
        var to := OwnerOf(s.v.ca, s.c, ver).value;
        if ByIds(s.v.k, Bucket(ver, 0, u), ids, |ids|, to).Some? {
          ListLeaves(s.v, s.c, Bucket(ver, 0, u), ids, to, t);
        }
      }
    case SweepBucketCall(ver, constraint, u, p, limit, att) =>
      ProvenIsApart(s, ver, constraint, p, att, t);
      if Prove(s.v, s.c, ver, constraint, p, att).Some? {
        var v1 := Prove(s.v, s.c, ver, constraint, p, att).value;
        PageLeaves(v1, s.c, Bucket(ver, constraint, u), limit, p.wallet, 0, 0, t);
      }
    case SweepBucketDepositsCall(ver, constraint, u, p, ids, att) =>
      ProvenIsApart(s, ver, constraint, p, att, t);
      if Prove(s.v, s.c, ver, constraint, p, att).Some? {
        var v1 := Prove(s.v, s.c, ver, constraint, p, att).value;
        if ByIds(v1.k, Bucket(ver, constraint, u), ids, |ids|, p.wallet).Some? {
          ListLeaves(v1, s.c, Bucket(ver, constraint, u), ids, p.wallet, t);
        }
      }
    case _ =>
  }

  lemma ProvenIsApart(s: World, ver: Address, constraint: Word, p: Proof, att: AlphaAttestation, t: Address)
    ensures var r := Prove(s.v, s.c, ver, constraint, p, att); r.Some? ==> Left(r.value, t) == Left(s.v, t)
  {
    hide Prove, Flow, PaidSum;
    if Prove(s.v, s.c, ver, constraint, p, att).Some? {
      ProveAppends(s.v, s.c, ver, constraint, p, att);
    }
  }

  // ------------------------------------------------------------------ one action

  /** While the lock is held money only comes in. */
  lemma {:induction false} LockedInflows(s: World, run: seq<Action>, t: Address)
    requires s.v.locked && CtxOk(s.c)
    ensures Get(ExecAll(s, run).c.bal, t) == Get(s.c.bal, t) + Inflows(s, run, t)
    decreases |run|
  {
    hide CtxOk, Later, OutsideStep, Front, Back, UpgradeTo;
    if run != [] {
      LockedStep(s, run[0]);
      LockedUpgrade(s, run[0]);
      LockedInflows(Exec(s, run[0]).w, run[1..], t);
    }
  }

  lemma LockedUpgrade(s: World, a: Action)
    requires s.v.locked
    ensures a.Upgrade? ==> Exec(s, a).w == s
  {
    hide Apply, Verifies, AuthoriseUpgrade, UpgradeProofNew, Claimable;
  }

  ghost predicate Conserves(s: World, a: Action, t: Address) {
    var w := Exec(s, a).w;
    Get(w.c.bal, t) + Left(w.v, t) == Get(s.c.bal, t) + Left(s.v, t) + Inflow(s, a, t)
  }

  lemma SendConserves(s: World, e: Entry, cb: seq<Action>, accepted: bool, t: Address)
    requires Inv(s) && !e.FundCall? && !e.RefreshCall? && !e.WithdrawFeesCall?
    ensures Conserves(s, Enter(e, cb, accepted), t)
  {
    hide Left, VaultInv, CtxOk, ExecAll, RefundDeposit, RefreshAndSweep, SweepDefault, SweepUntracked, SweepDeposits,
      SweepBucket, SweepBucketDeposits;
    var o := Payment(s, e);
    PaymentLeaves(s, e, t);
    if Front(s, e).Call? {
      var h := Front(s, e).h;
      HandedOver(s, e, o, h, cb, t);
    }
  }

  /** After a payment is handed over the storage is what the payment left, and the balance what came in on top. */
  lemma HandedOver(s: World, e: Entry, o: Out, h: World, cb: seq<Action>, t: Address)
    requires Inv(s) && o == Payment(s, e) && o.Out? && Send(s, o) == Call(h)
    ensures var w := ExecAll(h, cb);
            && w.v.(locked := false) == o.v.(locked := false) && Left(w.v.(locked := false), t) == Left(o.v, t)
            && Get(w.c.bal, t) == Get(s.c.bal, t) - (if t == o.token then o.net else 0) + Inflows(h, cb, t)
  {
    hide VaultInv, CtxOk, ExecAll, Payment, Flow, PaidSum;
    BalanceInRange(s.c, o.token);
    BalanceIsApart(s.c, o.token, Get(s.c.bal, o.token) - o.net);
    LockedFrame(h, cb);
    LockedInflows(h, cb, t);
  }

  lemma FundConserves(s: World, e: Entry, cb: seq<Action>, accepted: bool, t: Address)
    requires Inv(s) && e.FundCall?
    ensures Conserves(s, Enter(e, cb, accepted), t)
  {
    hide VaultInv, CtxOk, ExecAll, MayFund, Fund, Left;
    if Front(s, e).Call? {
      var h := Front(s, e).h;
      BalanceInRange(s.c, e.token);
      BalanceIsApart(s.c, e.token, Get(s.c.bal, e.token) + e.received);
      LockedFrame(h, cb);
      LockedInflows(h, cb, t);
      var w := ExecAll(h, cb);
      var credited := Get(w.c.bal, e.token) - Get(s.c.bal, e.token);
      if credited > 0 {
        FundingIsNotGone(w.v, w.c, e, credited, t);
        UnlockedLeft(s.v, t);
      }
    } else if Front(s, e).Done? {
      FundingIsNotGone(s.v, WithBalance(s.c, e.token, Get(s.c.bal, e.token) + e.amount), e, e.amount, t);
    }
  }

  lemma FundingIsNotGone(v: Vault, c: Ctx, e: Entry, credited: nat, t: Address)
    requires e.FundCall?
    ensures var v' := Fund(v, c, e.funder, e.verifier, e.token, credited, e.constraint, e.window);
            Left(v', t) == Left(v, t) && Left(v'.(locked := false), t) == Left(v, t)
  {
    hide Flow, PaidSum;
    var ev := Funded(|v.k.deposits|, e.funder, e.token, credited);
    FlowPushed(v.k.log, ev, t, Refunds);
    FlowPushed(v.k.log, ev, t, FeesOut);
  }

  lemma UnlockedLeft(v: Vault, t: Address)
    ensures Left(v.(locked := true), t) == Left(v, t) == Left(v.(locked := false), t)
  {
    hide Flow, PaidSum;
  }

  lemma WithdrawConserves(s: World, e: Entry, cb: seq<Action>, accepted: bool, t: Address)
    requires Inv(s) && e.WithdrawFeesCall?
    ensures Conserves(s, Enter(e, cb, accepted), t)
  {
    hide VaultInv, CtxOk, ExecAll, Left;
    if Front(s, e).Call? {
      var h := Front(s, e).h;
      BalanceInRange(s.c, e.token);
      BalanceIsApart(s.c, e.token, Get(s.c.bal, e.token) - Outflow(s, e));
      LockedFrame(h, cb);
      LockedInflows(h, cb, t);
      LockedInflows(h, cb, e.token);
      var w := ExecAll(h, cb);
      if Back(s, e, w).Some? {
        var spent := Get(s.c.bal, e.token) - Get(w.c.bal, e.token);
        var owed := Get(s.v.k.feesOwed, (e.verifier, e.token));
        var amount := if e.token == NATIVE then owed else if spent > 0 then spent else 0;
        DistributedIsGone(w.v, e.verifier, e.token, amount, t);
        UnlockedLeft(s.v, t);
      }
    }
  }

  lemma DistributedIsGone(v: Vault, ver: Address, u: Address, amount: nat, t: Address)
    ensures Left(v.(k := Distribute(v.k, ver, u, amount), locked := false), t)
            == Left(v, t) + (if t == u then amount else 0)
  {
    hide Flow, PaidSum;
    FlowPushed(v.k.log, FeesDistributed(ver, u, amount), t, Refunds);
    FlowPushed(v.k.log, FeesDistributed(ver, u, amount), t, FeesOut);
  }

  lemma UpgradeConserves(s: World, a: Action, t: Address)
    requires a.Upgrade?
    ensures Conserves(s, a, t)
  {
    hide Apply, Verifies, AuthoriseUpgrade, UpgradeProofNew, Claimable, Flow, PaidSum;
  }

  /** One action, whatever outside code does meanwhile. */
  lemma ExecConserves(s: World, a: Action, t: Address)
    requires Inv(s)
    ensures Conserves(s, a, t)
  {
    hide Inv, Left, Front, Back, OutsideStep, UpgradeTo, ExecAll, Prove;
    match a
    case Env(o) =>
    case Upgrade(_, _, _, _, _) => UpgradeConserves(s, a, t);
    case Enter(e, cb, accepted) =>
      if e.FundCall? {
        FundConserves(s, e, cb, accepted, t);
      } else if e.WithdrawFeesCall? {
        WithdrawConserves(s, e, cb, accepted, t);
      } else if e.RefreshCall? {
        RefreshConserves(s, e, cb, accepted, t);
      } else {
        SendConserves(s, e, cb, accepted, t);
      }
  }

  lemma RefreshConserves(s: World, e: Entry, cb: seq<Action>, accepted: bool, t: Address)
    requires e.RefreshCall?
    ensures Conserves(s, Enter(e, cb, accepted), t)
  {
    hide Prove, Left, ExecAll;
    ProvenIsApart(s, e.verifier, 0, e.proof, e.att, t);
  }

  // ------------------------------------------------------------------ runs

  lemma {:induction false} RunConserves(s: World, run: seq<Action>, t: Address)
    requires Inv(s)
    ensures var w := ExecAll(s, run);
            Get(w.c.bal, t) + Left(w.v, t) == Get(s.c.bal, t) + Left(s.v, t) + Inflows(s, run, t)
    decreases |run|
  {
    hide Inv, Exec, Left, Inflow;
    if run != [] {
      ExecInv(s, run[0]);
      ExecConserves(s, run[0], t);
      RunConserves(Exec(s, run[0]).w, run[1..], t);
    }
  }

  /**
   Conservation: along any run from deployment a token's balance is what was there and came in, minus whole
   refunds, payouts net of their fees, and what fee distribution took; nothing else ever moves it.
   */
  lemma BalanceIsAccounted(s0: World, run: seq<Action>, t: Address)
    requires Initial(s0)
    ensures var w := ExecAll(s0, run);
            Get(w.c.bal, t)
            == Get(s0.c.bal, t) + Inflows(s0, run, t)
               - Flow(w.v.k.log, t, Refunds) - (PaidSum(w.v.paid, t, Gross) - PaidSum(w.v.paid, t, Fees))
               - Flow(w.v.k.log, t, FeesOut)
  {
    hide Inv, ExecAll, Inflows, CtxOk;
    InitialInv(s0);
    RunConserves(s0, run, t);
    assert Left(s0.v, t) == 0;
  }
}
