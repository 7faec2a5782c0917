/** The invariant holds in every reachable state, with outside code calling back at every opportunity. */
module SystemProofs {
  import opened Types
  import opened KeySet
  import opened Factory
  import opened Books
  import opened OwnerCache
  import opened Vault
  import opened VaultProofs
  import opened System

  // ------------------------------------------------------------------ the outside only moves forward

  lemma LaterRefl(c: Ctx)
    ensures Later(c, c)
  {
  }

  lemma LaterTrans(a: Ctx, b: Ctx, c: Ctx)
    requires Later(a, b) && Later(b, c)
    ensures Later(a, c)
  {
    forall vk
      ensures AlphaRevision(a.f, vk) <= AlphaRevision(c.f, vk)
      ensures AlphaRevision(a.f, vk) == AlphaRevision(c.f, vk) && !IsAlpha(a.f, vk) ==> !IsAlpha(c.f, vk)
    {
      assert AlphaRevision(a.f, vk) <= AlphaRevision(b.f, vk) <= AlphaRevision(c.f, vk);
    }
    forall v | v in a.verifiers
      ensures v in c.verifiers && SameVerifier(a.verifiers[v], c.verifiers[v])
    {
      assert v in b.verifiers;
    }
    forall i | i in a.identities
      ensures i in c.identities && KeysLater(a.identities[i], c.identities[i])
    {
      assert i in b.identities;
    }
  }

  /** Balances only go up. */
  ghost predicate BalancesUp(c: Ctx, c': Ctx) {
    forall t :: Get(c.bal, t) <= Get(c'.bal, t)
  }

  lemma FactoryStepLater(c: Ctx, op: FactoryOp)
    requires FactoryInv(c.f)
    ensures var c' := c.(f := FactoryAfter(c.f, op, c.now)); Later(c, c') && FactoryInv(c'.f)
  {
    var c' := c.(f := FactoryAfter(c.f, op, c.now));
    forall vk
      ensures AlphaRevision(c.f, vk) <= AlphaRevision(c'.f, vk)
      ensures AlphaRevision(c.f, vk) == AlphaRevision(c'.f, vk) && !IsAlpha(c.f, vk) ==> !IsAlpha(c'.f, vk)
    {
      AlphaRevisionGuardsRelease(c.f, op, c.now, vk);
    }
  }

  lemma KeyCallLater(c: Ctx, i: Address, op: KeyOp)
    requires CtxOk(c) && i in c.identities
    ensures var c' := WithKeys(c, i, KeyAfter(c.identities[i], op, c.now)); Later(c, c') && CtxOk(c')
  {
    hide OnCurve;
    KeyAfterInv(c.identities[i], op, c.now);
    KeyAfterGrows(c.identities[i], op, c.now);
    hide KeyAfter;
  }

  /** One verifier answers otherwise, of the same kind and identity if it is known. */
  lemma VerifierLater(c: Ctx, v: Address, answer: Verifier)
    requires CtxOk(c) && (v in c.verifiers ==> SameVerifier(c.verifiers[v], answer))
    requires answer.Pvium? ==> answer.identity in c.identities && answer.vk != 0
    ensures var c' := c.(verifiers := c.verifiers[v := answer]); Later(c, c') && BalancesUp(c, c') && CtxOk(c')
  {
    hide KeyInv, FactoryInv;
  }

  lemma IdentityLater(c: Ctx, i: Address, keys: set<Key>, admin: Address)
    requires CtxOk(c) && i !in c.identities
    ensures var c' := WithKeys(c, i, KeyState(keys, |keys|, 0, map[], admin));
           Later(c, c') && BalancesUp(c, c') && CtxOk(c')
  {
    hide KeyInv, FactoryInv;
    FreshKeySet(keys, admin);
  }

  lemma OutsideForward(s: World, o: Outside)
    requires CtxOk(s.c)
    ensures var c' := OutsideStep(s, o); Later(s.c, c') && BalancesUp(s.c, c') && CtxOk(c')
  {
    hide KeyAfter, FactoryAfter, CtxOk, Later;
    LaterRefl(s.c);
    match o
    case Govern(op) => GovernLater(s.c, op);
    case KeyCall(i, op) =>
      if i in s.c.identities {
        KeyCallLater(s.c, i, op);
      }
    case DeployIdentity(i, keys, admin) =>
      if i !in s.c.identities {
        IdentityLater(s.c, i, keys, admin);
      }
    case DeployPvium(v, i, vk) =>
      if v !in s.c.verifiers && i in s.c.identities && vk != 0 {
        VerifierLater(s.c, v, Pvium(i, vk, false));
      }
    case SetSupports(v, supports) =>
      if v in s.c.verifiers && s.c.verifiers[v].Pvium? {
        PviumIsReady(s.c, v);
        VerifierLater(s.c, v, Pvium(s.c.verifiers[v].identity, s.c.verifiers[v].vk, supports));
      }
    case Answer(v, answer) =>
      if answer.Foreign? && (v !in s.c.verifiers || s.c.verifiers[v].Foreign?) {
        VerifierLater(s.c, v, answer);
      }
    case Donate(t, amount) => DonationLater(s.c, t, amount);
    case Tick(d) => ApartLater(s.c, s.c.(now := s.c.now + d));
    case PolicyAnswers(allowed, quotes) => ApartLater(s.c, s.c.(allowed := allowed, quotes := quotes));
    case CodeAnswers(guarded) => ApartLater(s.c, s.c.(guarded := guarded));
  }

  lemma PviumIsReady(c: Ctx, v: Address)
    requires CtxOk(c) && v in c.verifiers && c.verifiers[v].Pvium?
    ensures IsPvium(c, v) && c.verifiers[v].vk != 0
  {
  }

  lemma GovernLater(c: Ctx, op: FactoryOp)
    requires CtxOk(c)
    ensures var c' := c.(f := FactoryAfter(c.f, op, c.now)); Later(c, c') && CtxOk(c')
  {
    hide FactoryAfter;
    FactoryStepLater(c, op);
  }

  lemma DonationLater(c: Ctx, t: Address, amount: nat)
    requires CtxOk(c)
    ensures var c' := WithBalance(c, t, Get(c.bal, t) + amount);
            Get(c.bal, t) + amount <= MAX_U256 ==> Later(c, c') && BalancesUp(c, c') && CtxOk(c')
  {
  }

  /** Time, the policy's answers and those of implementations concern neither verifiers nor balances. */
  lemma ApartLater(c: Ctx, c': Ctx)
    requires CtxOk(c) && c.now <= c'.now
    requires c' == c.(now := c'.now, allowed := c'.allowed, quotes := c'.quotes, guarded := c'.guarded)
    ensures Later(c, c') && CtxOk(c')
  {
  }

  lemma FreshKeySet(keys: set<Key>, admin: Address)
    ensures KeyInv(KeyState(keys, |keys|, 0, map[], admin))
  {
  }

  // ------------------------------------------------------------------ while the lock is held

  /** Outside code that runs while the lock is held cannot touch the vault or upgrade its proxy. */
  lemma {:induction false} LockedFrame(s: World, run: seq<Action>)
    requires s.v.locked && CtxOk(s.c)
    ensures var h := ExecAll(s, run);
            h.v == s.v && h.px == s.px && h.sent == s.sent && Later(s.c, h.c) && BalancesUp(s.c, h.c) && CtxOk(h.c)
    decreases |run|
  {
    hide CtxOk, Later, OutsideStep;
    if run == [] {
      LaterRefl(s.c);
    } else {
      var s1 := Exec(s, run[0]).w;
      LockedStep(s, run[0]);
      LockedFrame(s1, run[1..]);
      LaterTrans(s.c, s1.c, ExecAll(s1, run[1..]).c);
    }
  }

  lemma LockedStep(s: World, a: Action)
    requires s.v.locked && CtxOk(s.c)
    ensures var h := Exec(s, a).w;
            h.v == s.v && h.px == s.px && h.sent == s.sent && Later(s.c, h.c) && BalancesUp(s.c, h.c) && CtxOk(h.c)
    ensures !a.Env? ==> !Exec(s, a).ok
  {
    hide CtxOk, Later, OutsideStep;
    LaterRefl(s.c);
    if a.Env? {
      OutsideForward(s, a.o);
    }
  }

  // ------------------------------------------------------------------ entry points keep the invariant

  /** A change outside the vault keeps the vault's own invariant. */
  lemma VaultInvLater(v: Vault, c: Ctx, c': Ctx, used: set<nat>)
    requires VaultInv(v, c, used) && Later(c, c')
    ensures VaultInv(v, c', used)
  {
    hide BooksInv, Later, Authorised, PaidInv, PaidAddsUp, Shape;
    RecordsLast(v.ca, c, c');
  }

  /** Finishing a payment: the invariant returns once the payee's call is over. */
  lemma SendInv(s: World, o: Out, cb: seq<Action>)
    requires Inv(s) && o.Out? && VaultInv(o.v, s.c, s.px.used) && Affords(s.v, s.c, o)
    requires !o.v.locked && s.px.iat <= o.v.ca.untracked && o.v.salt == s.v.salt
    ensures !Send(s, o).Fail?
    ensures Send(s, o).Done? ==> Inv(Send(s, o).w)
    ensures Send(s, o).Call? ==>
              var h := ExecAll(Send(s, o).h, cb); Inv(h.(v := h.v.(locked := false)))
  {
    hide VaultInv, ExecAll, Later, CtxOk;
    BalanceInRange(s.c, o.token);
    assert forall t :: Get(s.c.bal, t) >= Held(s.v.k, t);
    assert Get(s.c.bal, o.token) - o.net >= Held(o.v.k, o.token) by {
      assert Get(s.c.bal, o.token) >= Held(s.v.k, o.token);
    }
    HeldIsNatural(o.v, s.c, s.px.used, o.token);
    if o.net == 0 {
      assert Solvent(s.(v := o.v));
    } else {
      var h0 := Send(s, o).h;
      BalanceIsApart(s.c, o.token, Get(s.c.bal, o.token) - o.net);
      LockedFrame(h0, cb);
      var h := ExecAll(h0, cb);
      LaterTrans(s.c, h0.c, h.c);
      VaultInvLater(o.v, s.c, h.c, s.px.used);
      assert h.v.(locked := false) == o.v;
      forall t
        ensures Get(h.c.bal, t) >= Held(o.v.k, t)
      {
        assert Get(s.c.bal, t) >= Held(s.v.k, t);
        assert Get(h0.c.bal, t) >= Held(o.v.k, t);
        assert Get(h0.c.bal, t) <= Get(h.c.bal, t);
      }
    }
  }

  lemma BalanceIsApart(c: Ctx, t: Address, amount: int)
    ensures Later(c, WithBalance(c, t, amount))
    ensures CtxOk(c) && 0 <= amount <= MAX_U256 ==> CtxOk(WithBalance(c, t, amount))
  {
    var c' := WithBalance(c, t, amount);
    forall u
      ensures Get(c'.bal, u) == if u == t then amount else Get(c.bal, u)
    {
    }
  }

  lemma BalanceInRange(c: Ctx, t: Address)
    requires CtxOk(c)
    ensures 0 <= Get(c.bal, t) <= MAX_U256
  {
  }

  lemma HeldIsNatural(v: Vault, c: Ctx, used: set<nat>, t: Address)
    requires VaultInv(v, c, used)
    ensures Held(v.k, t) >= 0
  {
    BooksHeld(v.k, t);
  }

  lemma BooksHeld(k: Books, t: Address)
    requires BooksInv(k)
    ensures Get(k.tracked, t) >= 0 && Get(k.feesTotal, t) >= 0
  {
    assert Get(k.tracked, t) == Total(k.deposits, OfToken(t));
    assert Get(k.feesTotal, t) == FeeSum(k.feesOwed, t);
    FeeSumBounds(k.feesOwed, t, (0, t));
  }

  lemma FundEntryInv(s: World, e: Entry, cb: seq<Action>)
    requires Inv(s) && e.FundCall?
    ensures Front(s, e).Done? ==> Inv(Front(s, e).w)
    ensures Front(s, e).Call? && Back(s, e, ExecAll(Front(s, e).h, cb)).Some?
            ==> Inv(Back(s, e, ExecAll(Front(s, e).h, cb)).value)
  {
    hide VaultInv, ExecAll, Later, CtxOk, MayFund, Fund;
    var t := e.token;
    BalanceInRange(s.c, t);
    match Front(s, e)
    case Fail =>
    case Done(w) =>
      BalanceIsApart(s.c, t, Get(s.c.bal, t) + e.amount);
      VaultInvLater(s.v, s.c, w.c, s.px.used);
      assert 0 < e.amount <= MAX_U128 by {
        FundableAmount(s.v, s.c, e.funder, e.verifier, e.amount, e.constraint, e.window);
      }
      FundInv(s.v, s.c, w.c, s.px.used, e.funder, e.verifier, t, e.amount, e.amount, e.constraint, e.window);
      FundIsApart(s.v, w.c, e.funder, e.verifier, t, e.amount, e.constraint, e.window);
      assert forall u :: Get(s.c.bal, u) >= Held(s.v.k, u);
    case Call(h0) =>
      BalanceIsApart(s.c, t, Get(s.c.bal, t) + e.received);
      LockedFrame(h0, cb);
      var h := ExecAll(h0, cb);
      LaterTrans(s.c, h0.c, h.c);
      VaultInvLater(s.v, s.c, h.c, s.px.used);
      var credited := Get(h.c.bal, t) - Get(s.c.bal, t);
      if 0 < credited <= MAX_U128 {
        FundInv(s.v, s.c, h.c, s.px.used, e.funder, e.verifier, t, credited, e.amount, e.constraint, e.window);
        FundIsApart(s.v, h.c, e.funder, e.verifier, t, credited, e.constraint, e.window);
        LockIsApart(h.v, h.c, e.funder, e.verifier, t, credited, e.constraint, e.window);
        assert h.v.(locked := false) == s.v;
        forall u
          ensures Get(h.c.bal, u) >= Held(s.v.k, u) + (if u == t then credited else 0)
        {
          assert Get(s.c.bal, u) >= Held(s.v.k, u);
          assert Get(h0.c.bal, u) <= Get(h.c.bal, u);
        }
      }
  }

  lemma FundableAmount(v: Vault, c: Ctx, funder: Address, ver: Address, amount: nat, constraint: Word, window: nat)
    requires MayFund(v, c, funder, ver, amount, constraint, window)
    ensures 0 < amount <= MAX_U128
  {
  }

  /** Funding moves no cached owner and no lock. */
  lemma FundIsApart(v: Vault, c: Ctx, funder: Address, ver: Address, t: Address, credited: nat, constraint: Word,
                    window: nat)
    ensures var v' := Fund(v, c, funder, ver, t, credited, constraint, window);
            v'.ca == v.ca && v'.locked == v.locked && v'.salt == v.salt
  {
  }

  lemma LockIsApart(v: Vault, c: Ctx, funder: Address, ver: Address, t: Address, credited: nat, constraint: Word,
                    window: nat)
    ensures Fund(v, c, funder, ver, t, credited, constraint, window).(locked := false)
            == Fund(v.(locked := false), c, funder, ver, t, credited, constraint, window)
  {
  }

  lemma WithdrawEntryInv(s: World, e: Entry, cb: seq<Action>)
    requires Inv(s) && e.WithdrawFeesCall?
    ensures Front(s, e).Done? ==> Inv(Front(s, e).w)
    ensures Front(s, e).Call? && Back(s, e, ExecAll(Front(s, e).h, cb)).Some?
            ==> Inv(Back(s, e, ExecAll(Front(s, e).h, cb)).value)
  {
    hide VaultInv, ExecAll, Later, CtxOk;
    var t, ver := e.token, e.verifier;
    BalanceInRange(s.c, t);
    if Front(s, e).Call? {
      var h0 := Front(s, e).h;
      BalanceIsApart(s.c, t, Get(s.c.bal, t) - Outflow(s, e));
      LockedFrame(h0, cb);
      var h := ExecAll(h0, cb);
      LaterTrans(s.c, h0.c, h.c);
      VaultInvLater(s.v, s.c, h.c, s.px.used);
      if Back(s, e, h).Some? {
        var owed := Get(s.v.k.feesOwed, (ver, t));
        var spent := Get(s.c.bal, t) - Get(h.c.bal, t);
        var amount: nat := if t == NATIVE then owed else if spent > 0 then spent else 0;
        DistributedInv(s.v, h.c, s.px.used, ver, t, amount);
        assert Back(s, e, h).value.v == s.v.(k := Distribute(s.v.k, ver, t, amount));
        forall u
          ensures Get(h.c.bal, u) >= Held(s.v.k, u) - (if u == t then amount else 0)
        {
          assert Get(s.c.bal, u) >= Held(s.v.k, u);
          assert Get(h0.c.bal, u) <= Get(h.c.bal, u);
        }
      }
    }
  }

  /** The other entry points compute a payment (or none) and send it last. */
  function Payment(s: World, e: Entry): Out {
    match e
    case RefundCall(caller, id) => RefundDeposit(s.v, s.c, caller, id)
    case RefreshAndSweepCall(ver, p, t, limit, att) => RefreshAndSweep(s.v, s.c, ver, p, t, limit, att)
    case SweepCall(ver, t, limit) => SweepDefault(s.v, s.c, ver, t, limit)
    case SweepUntrackedCall(t) => SweepUntracked(s.v, s.c, t)
    case SweepDepositsCall(ver, t, ids) => SweepDeposits(s.v, s.c, ver, t, ids)
    case SweepBucketCall(ver, constraint, t, p, limit, att) => SweepBucket(s.v, s.c, ver, constraint, t, p, limit, att)
    case SweepBucketDepositsCall(ver, constraint, t, p, ids, att) =>
      SweepBucketDeposits(s.v, s.c, ver, constraint, t, p, ids, att)
    case _ => Revert
  }

  lemma PaymentInv(s: World, e: Entry)
    requires VaultInv(s.v, s.c, s.px.used) && Payment(s, e).Out?
    ensures VaultInv(Payment(s, e).v, s.c, s.px.used) && Affords(s.v, s.c, Payment(s, e))
  {
    hide VaultInv, Affords, RefundDeposit, RefreshAndSweep, SweepDefault, SweepUntracked, SweepDeposits, SweepBucket,
         SweepBucketDeposits;
    match e
    case RefundCall(caller, id) => RefundDepositInv(s.v, s.c, s.px.used, caller, id);
    case RefreshAndSweepCall(ver, p, t, limit, att) => RefreshAndSweepInv(s.v, s.c, s.px.used, ver, p, t, limit, att);
    case SweepCall(ver, t, limit) => SweepDefaultInv(s.v, s.c, s.px.used, ver, t, limit);
    case SweepUntrackedCall(t) => SweepUntrackedInv(s.v, s.c, s.px.used, t);
    case SweepDepositsCall(ver, t, ids) => SweepDepositsInv(s.v, s.c, s.px.used, ver, t, ids);
    case SweepBucketCall(ver, constraint, t, p, limit, att) =>
      SweepBucketInv(s.v, s.c, s.px.used, ver, constraint, t, p, limit, att);
    case SweepBucketDepositsCall(ver, constraint, t, p, ids, att) =>
      SweepBucketDepositsInv(s.v, s.c, s.px.used, ver, constraint, t, p, ids, att);
    case _ =>
  }

  /** The constraint a call asks its proof to satisfy. */
  function Asked(e: Entry): Word {
    if e.SweepBucketCall? || e.SweepBucketDepositsCall? then e.constraint else 0
  }

  /** The cross-default floor never falls, only proofs move the cache, and the vault's identity never changes. */
  lemma FloorNeverFalls(s: World, e: Entry)
    ensures Payment(s, e).Out? ==>
              Payment(s, e).v.ca.untracked >= s.v.ca.untracked && Payment(s, e).v.locked == s.v.locked
              && Payment(s, e).v.salt == s.v.salt
    ensures e.RefreshCall? && Front(s, e).Done? ==>
              Front(s, e).w.v.ca.untracked >= s.v.ca.untracked && Front(s, e).w.v.locked == s.v.locked
              && Front(s, e).w.v.salt == s.v.salt
  {
    hide FromCursor, ByIds, Accrue, OwnerOf, Loose, LooseFee, Refund, Prove;
    match e
    case RefreshCall(ver, p, att) => ProveRaisesFloor(s.v, s.c, ver, 0, p, att);
    case RefreshAndSweepCall(ver, p, t, limit, att) => ProveRaisesFloor(s.v, s.c, ver, 0, p, att);
    case SweepBucketCall(ver, constraint, t, p, limit, att) => ProveRaisesFloor(s.v, s.c, ver, constraint, p, att);
    case SweepBucketDepositsCall(ver, constraint, t, p, ids, att) =>
      ProveRaisesFloor(s.v, s.c, ver, constraint, p, att);
    case _ =>
  }

  lemma ProveRaisesFloor(v: Vault, c: Ctx, ver: Address, constraint: Word, p: Proof, att: AlphaAttestation)
    ensures var r := Prove(v, c, ver, constraint, p, att);
            r.Some? ==>
              r.value.ca.untracked >= v.ca.untracked && r.value.locked == v.locked && r.value.salt == v.salt
  {
    hide OwnerFresh, RecordOf, VerifyAlpha;
  }

  lemma EnterInv(s: World, e: Entry, cb: seq<Action>, accepted: bool)
    requires Inv(s)
    ensures Inv(Exec(s, Enter(e, cb, accepted)).w)
  {
    hide Inv, ExecAll, RefundDeposit, RefreshAndSweep, SweepDefault, SweepUntracked, SweepDeposits, SweepBucket,
         SweepBucketDeposits, Send;
    InvParts(s);
    if e.FundCall? {
      FundEntryInv(s, e, cb);
    } else if e.WithdrawFeesCall? {
      WithdrawEntryInv(s, e, cb);
    } else if e.RefreshCall? {
      if Front(s, e).Done? {
        RefreshInv(s, e);
      }
    } else if Payment(s, e).Out? {
      PaymentInv(s, e);
      FloorNeverFalls(s, e);
      SendInv(s, Payment(s, e), cb);
    } else {
      SendNothing(s, Payment(s, e));
    }
  }

  lemma SendNothing(s: World, o: Out)
    requires o.Revert?
    ensures Send(s, o).Fail?
  {
  }

  lemma InvParts(s: World)
    requires Inv(s)
    ensures VaultInv(s.v, s.c, s.px.used) && !s.v.locked && s.px.iat <= s.v.ca.untracked && CtxOk(s.c)
    ensures s.px.identity == s.v.salt
  {
  }

  lemma RefreshInv(s: World, e: Entry)
    requires Inv(s) && e.RefreshCall? && Front(s, e).Done?
    ensures Inv(Front(s, e).w)
  {
    hide VaultInv, CtxOk, Prove;
    FloorNeverFalls(s, e);
    ProveInv(s.v, s.c, s.px.used, e.verifier, 0, e.proof, e.att);
    ProveAppends(s.v, s.c, e.verifier, 0, e.proof, e.att);
    assert forall t :: Get(s.c.bal, t) >= Held(s.v.k, t);
  }

  // ------------------------------------------------------------------ upgrades

  lemma UpgradeAsPresent(s: World, p: Proof, auth: Auth)
    requires Verifies(s.c, s.c.f.defaultVerifier, s.v.salt, 0, p)
    ensures var ver := s.c.f.defaultVerifier;
            var r := AcceptOwnerProof(s.v, s.c, ver, p.origin, p.wallet, p.iat, auth);
            r.Some? ==> !s.v.locked && r == Present(s.v, s.c, ver, 0, p, auth) && Get(r.value.ca.owner, ver) == p.wallet
  {
    hide Apply;
  }

  /**
   Upgrade agreement: a successful upgrade leaves the caller as owner under the default verifier, and the
   verifier's floor, the cross-default floor and the recorded upgrade time all equal to the proof's time.
   */
  lemma UpgradeAgreement(s: World, caller: Address, identity: Word, impl: Address, p: Proof,
                         att: AlphaAttestation)
    requires Inv(s) && UpgradeTo(s, caller, identity, impl, p, att).ok
    ensures var w := UpgradeTo(s, caller, identity, impl, p, att).w;
            var ver := s.c.f.defaultVerifier;
            && Get(w.v.ca.owner, ver) == caller == w.px.wallet
            && Get(w.v.ca.latest, ver) == w.v.ca.untracked == w.px.iat == p.iat
            && w.px.impl == impl && impl in s.c.f.registered && impl in s.c.guarded
            && identity == s.v.salt == w.v.salt
            && OwnerFresh(w.v.ca, s.c, ver)
            && !s.v.locked
  {
    hide OwnerFresh, AuthoriseUpgrade;
    var ver := s.c.f.defaultVerifier;
    var (used, auth) := AuthoriseUpgrade(s, att).value;
    hide Apply;
    FloorsAreBounded(s.v.ca, s.c, ver);
    ApplyAccepts(s.v.ca, s.c, ver, p.origin, p.wallet, p.iat, auth);
    FreshnessAfterApply(s.v.ca, s.c, ver, p.origin, p.wallet, p.iat, auth);
  }

  lemma UpgradeInv(s: World, caller: Address, identity: Word, impl: Address, p: Proof, att: AlphaAttestation)
    requires Inv(s)
    ensures Inv(UpgradeTo(s, caller, identity, impl, p, att).w)
  {
    hide Inv, Apply, Present;
    var r := UpgradeTo(s, caller, identity, impl, p, att);
    if r.ok {
      var (used, auth) := AuthoriseUpgrade(s, att).value;
      UpgradeAgreement(s, caller, identity, impl, p, att);
      UpgradeAsPresent(s, p, auth);
      AuthorisedUpgrade(s, p, auth, used, att);
      UpgradeKeepsMoney(s, r.w, p, auth);
    }
  }

  lemma AuthorisedUpgrade(s: World, p: Proof, auth: Auth, used: set<nat>, att: AlphaAttestation)
    requires Inv(s) && AuthoriseUpgrade(s, att) == Some((used, auth))
    requires Present(s.v, s.c, s.c.f.defaultVerifier, 0, p, auth).Some?
    ensures VaultInv(Present(s.v, s.c, s.c.f.defaultVerifier, 0, p, auth).value, s.c, used)
  {
    hide VaultInv, Present, VerifyAlpha;
    assert s.v.(nonces := s.v.nonces) == s.v;
    PresentInv(s.v, s.c, s.px.used, used, s.v.nonces, s.c.f.defaultVerifier, 0, p, auth);
  }

  lemma UpgradeKeepsMoney(s: World, w: World, p: Proof, auth: Auth)
    requires Inv(s) && w.c == s.c && VaultInv(w.v, s.c, w.px.used)
    requires Present(s.v, s.c, s.c.f.defaultVerifier, 0, p, auth) == Some(w.v) && w.px.iat == w.v.ca.untracked
             && w.px.identity == s.px.identity
    ensures Inv(w)
  {
    hide VaultInv, CtxOk, Apply;
    assert w.v.k == s.v.k;
    assert forall t :: Get(s.c.bal, t) >= Held(s.v.k, t);
  }

  lemma EnvInv(s: World, o: Outside)
    requires Inv(s)
    ensures Inv(Exec(s, Env(o)).w)
  {
    hide VaultInv, CtxOk, OutsideStep, Later;
    OutsideForward(s, o);
    VaultInvLater(s.v, s.c, OutsideStep(s, o), s.px.used);
    forall t
      ensures Get(OutsideStep(s, o).bal, t) >= Held(s.v.k, t)
    {
      assert Get(s.c.bal, t) >= Held(s.v.k, t);
    }
  }

  // ------------------------------------------------------------------ every reachable state

  lemma ExecInv(s: World, a: Action)
    requires Inv(s)
    ensures Inv(Exec(s, a).w)
  {
    hide Inv, Front, Back, OutsideStep;
    match a
    case Env(o) => EnvInv(s, o);
    case Upgrade(caller, identity, impl, p, att) => UpgradeInv(s, caller, identity, impl, p, att);
    case Enter(e, cb, accepted) => EnterInv(s, e, cb, accepted);
  }

  lemma {:induction false} RunInv(s: World, run: seq<Action>)
    requires Inv(s)
    ensures Inv(ExecAll(s, run))
    decreases |run|
  {
    hide Inv, Exec;
    if run != [] {
      ExecInv(s, run[0]);
      RunInv(Exec(s, run[0]).w, run[1..]);
    }
  }

  /** A state some run of actions reaches from a freshly deployed vault. */
  ghost predicate Reachable(s: World) {
    exists s0: World, run: seq<Action> :: Initial(s0) && s == ExecAll(s0, run)
  }

  lemma ReachableInv(s: World)
    requires Reachable(s)
    ensures Inv(s)
  {
    hide Initial, Inv;
    var s0: World, run: seq<Action> :| Initial(s0) && s == ExecAll(s0, run);
    InitialInv(s0);
    RunInv(s0, run);
  }

  lemma {:induction false} RunsCompose(s: World, a: seq<Action>, b: seq<Action>)
    ensures ExecAll(s, a + b) == ExecAll(ExecAll(s, a), b)
    decreases |a|
  {
    hide Exec;
    if a == [] {
      assert a + b == b;
    } else {
      assert (a + b)[1..] == a[1..] + b;
      RunsCompose(Exec(s, a[0]).w, a[1..], b);
    }
  }

  /** What a run reaches from a reachable state is reachable. */
  lemma ReachableOn(s: World, run: seq<Action>)
    requires Reachable(s)
    ensures Reachable(ExecAll(s, run))
  {
    hide Initial, ExecAll;
    var s0: World, first: seq<Action> :| Initial(s0) && s == ExecAll(s0, first);
    RunsCompose(s0, first, run);
  }
}
