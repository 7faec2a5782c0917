/** What holds in every reachable state of the vault system, and along every run. */
module Theorems {
  import opened Types
  import opened KeySet
  import opened Factory
  import opened Books
  import opened OwnerCache
  import opened Vault
  import opened VaultProofs
  import opened System
  import opened SystemProofs

  // ------------------------------------------------------------------ money

  /**
   Solvency: in every reachable state each token's balance covers the unconsumed deposits plus the fees
   owed, and the three stored layers of totals are exactly those sums. All of them fit 256 bits, so the
   contract's checked arithmetic on them never reverts.
   */
  lemma Solvency(s: World, t: Address, b: Bucket)
    requires Reachable(s)
    ensures Get(s.c.bal, t) >= Total(s.v.k.deposits, OfToken(t)) + FeeSum(s.v.k.feesOwed, t)
    ensures Get(s.v.k.tracked, t) == Total(s.v.k.deposits, OfToken(t))
    ensures Get(s.v.k.bucketTotal, b) == Total(s.v.k.deposits, OfBucket(b))
    ensures Get(s.v.k.feesTotal, t) == FeeSum(s.v.k.feesOwed, t)
    ensures 0 <= Get(s.v.k.tracked, t) <= MAX_U256 && 0 <= Get(s.v.k.feesTotal, t) <= MAX_U256
    ensures 0 <= Get(s.v.k.bucketTotal, b) <= Get(s.v.k.tracked, b.token)
  {
    ReachableInv(s);
    SumsHold(s, t, b);
    BucketWithinToken(s.v.k.deposits, b);
  }

  lemma SumsHold(s: World, t: Address, b: Bucket)
    requires Inv(s)
    ensures Get(s.c.bal, t) >= Held(s.v.k, t) && Get(s.c.bal, t) <= MAX_U256
    ensures Get(s.v.k.tracked, t) == Total(s.v.k.deposits, OfToken(t))
    ensures Get(s.v.k.tracked, b.token) == Total(s.v.k.deposits, OfToken(b.token))
    ensures Get(s.v.k.bucketTotal, b) == Total(s.v.k.deposits, OfBucket(b))
    ensures Get(s.v.k.feesTotal, t) == FeeSum(s.v.k.feesOwed, t) >= 0
  {
    hide CacheInv, Authorised, PaidInv, PaidAddsUp, Indexed, Recorded, Ledger;
    BooksHeld(s.v.k, t);
  }

  lemma {:induction false} BucketWithinToken(ds: seq<Deposit>, b: Bucket)
    ensures Total(ds, OfBucket(b)) <= Total(ds, OfToken(b.token))
  {
    if ds != [] {
      BucketWithinToken(ds[..|ds| - 1], b);
    }
  }

  /** A state outside code observes while an entry point has handed it control. */
  ghost predicate Sees(s: World, e: Entry, cb: seq<Action>, n: nat, w: World) {
    n <= |cb| && !s.v.locked && Front(s, e).Call? && w == ExecAll(Front(s, e).h, cb[..n])
  }

  /**
   Solvency during callbacks: whatever outside code does while it holds control, it sees a locked vault
   whose balance, together with fees in flight to the policy, covers everything held.
   */
  lemma CallbackSolvency(s: World, e: Entry, cb: seq<Action>, n: nat, w: World, t: Address)
    requires Reachable(s) && Sees(s, e, cb, n, w)
    ensures w.v.locked
    ensures Get(w.c.bal, t) + (if e.WithdrawFeesCall? && t == e.token then Outflow(s, e) else 0) >= Held(w.v.k, t)
  {
    hide Inv, Front;
    ReachableInv(s);
    HandedSolvent(s, e, t);
    LockedFrame(Front(s, e).h, cb[..n]);
  }

  lemma HandedSolvent(s: World, e: Entry, t: Address)
    requires Inv(s) && Front(s, e).Call?
    ensures var h := Front(s, e).h;
            && h.v.locked && CtxOk(h.c)
            && Get(h.c.bal, t) + (if e.WithdrawFeesCall? && t == e.token then Outflow(s, e) else 0) >= Held(h.v.k, t)
  {
    hide VaultInv, CtxOk, RefundDeposit, RefreshAndSweep, SweepDefault, SweepUntracked, SweepDeposits, SweepBucket,
      SweepBucketDeposits, MayFund;
    assert Get(s.c.bal, t) >= Held(s.v.k, t);
    if Payment(s, e).Out? {
      PaymentInv(s, e);
      var o := Payment(s, e);
      BalanceInRange(s.c, o.token);
      BalanceIsApart(s.c, o.token, Get(s.c.bal, o.token) - o.net);
    } else if e.FundCall? {
      BalanceInRange(s.c, e.token);
      BalanceIsApart(s.c, e.token, Get(s.c.bal, e.token) + e.received);
    } else if e.WithdrawFeesCall? {
      BalanceInRange(s.c, e.token);
      BalanceIsApart(s.c, e.token, Get(s.c.bal, e.token) - Outflow(s, e));
    }
  }

  /** Sweeps paid gross exactly the claimed deposits plus untracked funds; their fees are all accounted for. */
  lemma PayoutsAddUp(s: World, t: Address)
    requires Reachable(s)
    ensures PaidSum(s.v.paid, t, Gross) == Flow(s.v.k.log, t, Claims) + PaidSum(s.v.paid, t, Surplus)
    ensures PaidSum(s.v.paid, t, Fees) == Flow(s.v.k.log, t, FeesOut) + FeeSum(s.v.k.feesOwed, t)
  {
    hide CacheInv, Authorised, PaidInv, Indexed, Recorded, Solvent, CtxOk;
    ReachableInv(s);
    assert Get(s.v.k.feesTotal, t) == FeeSum(s.v.k.feesOwed, t);
    assert Flow(s.v.k.log, t, FeesIn) == Flow(s.v.k.log, t, FeesOut) + Get(s.v.k.feesTotal, t);
  }

  /**
   Bucket agreement: a bucket's list holds exactly its deposits' ids in funding order, everything below
   the cursor is consumed, and a nonzero constraint is never used twice by one funder.
   */
  lemma BucketAgreement(s: World, b: Bucket, i: nat, j: nat)
    requires Reachable(s)
    ensures forall id: nat :: id in IdList(s.v.k, b) <==> id < |s.v.k.deposits| && BucketOf(s.v.k.deposits[id]) == b
    ensures i < j < |IdList(s.v.k, b)| ==> IdList(s.v.k, b)[i] < IdList(s.v.k, b)[j]
    ensures i < Cursor(s.v.k, b) ==> i < |IdList(s.v.k, b)| && IdList(s.v.k, b)[i] < |s.v.k.deposits|
                                     && s.v.k.deposits[IdList(s.v.k, b)[i]].consumed
    ensures i < j < |s.v.k.deposits| && s.v.k.deposits[i].constraint == s.v.k.deposits[j].constraint != 0
            ==> s.v.k.deposits[i].funder != s.v.k.deposits[j].funder
  {
    hide CacheInv, Authorised, PaidInv, PaidAddsUp, Totals, Ledger, Solvent, CtxOk;
    ReachableInv(s);
    assert IdList(s.v.k, b) == Ids(s.v.k.deposits, b);
    IdsExact(s.v.k.deposits, b);
    assert 0 <= Get(s.v.k.cursor, b) <= |IdList(s.v.k, b)|;
    assert AllConsumed(s.v.k.deposits, IdList(s.v.k, b), Get(s.v.k.cursor, b));
    assert i < |IdList(s.v.k, b)| ==> IdList(s.v.k, b)[i] in Ids(s.v.k.deposits, b);
  }

  // ------------------------------------------------------------------ who may be paid

  /** The cached owner is the wallet of the earliest accepted proof with the maximal issue time. */
  lemma OwnerRefinesHistory(s: World, ver: Address)
    requires Reachable(s)
    ensures Refines(s.v.ca, ver)
    ensures OwnerFresh(s.v.ca, s.c, ver) ==> Get(s.v.ca.owner, ver) > 0
    ensures IsDefaultFloor(s.v.ca.hist, s.v.ca.untracked)
  {
    hide BooksInv, Authorised, PaidInv, PaidAddsUp, Solvent, CtxOk, OwnerFresh, Records;
    ReachableInv(s);
    if OwnerFresh(s.v.ca, s.c, ver) {
      FreshHasOwner(s.v.ca, s.c, ver);
    }
  }

  /**
   Alpha safety: whenever the verifier's current key is in alpha, the wallet a proofless sweep would pay
   was last validated by a step that spent an attestation nonce, and no two steps ever spent the same one.
   */
  lemma AlphaSafety(s: World, ver: Address)
    requires Reachable(s) && OwnerOf(s.v.ca, s.c, ver).Some? && IsAlpha(s.c.f, VkHash(s.c, ver).value)
    ensures exists i: nat :: Validated(s.v.ca, ver, i) && !s.v.ca.hist[i].auth.Unattested?
                             && s.v.ca.hist[i].wallet == OwnerOf(s.v.ca, s.c, ver).value
    ensures forall i, j :: 0 <= i < j < |s.v.ca.hist| && !s.v.ca.hist[i].auth.Unattested?
                           ==> s.v.ca.hist[i].auth != s.v.ca.hist[j].auth
  {
    hide BooksInv, PaidInv, PaidAddsUp, Solvent, CtxOk, CacheInv;
    ReachableInv(s);
    AlphaFreshMeansAttested(s.v.ca, s.c, s.v.nonces, s.px.used, ver);
  }

  /** Bounded lockout: no recorded floor is ever more than fifteen minutes ahead of the clock. */
  lemma BoundedLockout(s: World, ver: Address)
    requires Reachable(s)
    ensures Get(s.v.ca.latest, ver) <= s.c.now + FUTURE_SLACK
    ensures s.px.iat <= s.v.ca.untracked <= s.c.now + FUTURE_SLACK
  {
    hide BooksInv, Authorised, PaidInv, PaidAddsUp, Solvent, CtxOk, CacheInv;
    ReachableInv(s);
    FloorsAreBounded(s.v.ca, s.c, ver);
  }

  /**
   So nobody is locked out for longer: a proof issued more than fifteen minutes after a reachable state
   and presented once it is current (in outside conditions `c`) passes every floor that state recorded,
   the vault's and the proxy's, and its wallet becomes the owner.
   */
  lemma LateProofPasses(s: World, c: Ctx, ver: Address, p: Proof, auth: Auth)
    requires Reachable(s) && p.wallet != 0
    requires s.c.now + FUTURE_SLACK < p.iat <= c.now + FUTURE_SLACK
    requires Revision(c, ver).Some? && VkHash(c, ver).Some? && VkHash(c, ver).value != 0
    ensures UpgradeProofNew(s.(c := c), p)
    ensures var ca := Apply(s.v.ca, c, ver, p.origin, p.wallet, p.iat, auth);
            ca.Some? && Get(ca.value.owner, ver) == p.wallet && Get(ca.value.latest, ver) == p.iat
              && OwnerFresh(ca.value, c, ver)
  {
    hide BooksInv, Authorised, PaidInv, PaidAddsUp, Solvent, CtxOk, CacheInv, Apply, OwnerFresh;
    ReachableInv(s);
    FloorsAreBounded(s.v.ca, s.c, c.f.defaultVerifier);
    LateProofIsApplied(s.v.ca, s.c, c, ver, p.origin, p.wallet, p.iat, auth);
  }

  /** Every payout ever made obeyed the payout rule at its moment. */
  lemma EveryPayoutWasRight(s: World, i: nat)
    requires Reachable(s) && i < |s.v.paid|
    ensures PaidRight(s.v.paid[i], s.v.ca.hist)
  {
    hide BooksInv, Authorised, CacheInv, PaidAddsUp, Solvent, CtxOk, PaidRight;
    ReachableInv(s);
  }

  // ------------------------------------------------------------------ along a run

  /** History only grows, the outside only moves forward, and the recorded upgrade never goes back. */
  ghost predicate Forward(s: World, w: World) {
    && s.v.ca.hist <= w.v.ca.hist
    && Later(s.c, w.c)
    && s.px.iat <= w.px.iat
    && (s.px.iat == w.px.iat ==> s.px.wallet == w.px.wallet)
  }

  lemma ForwardTrans(a: World, b: World, c: World)
    requires Forward(a, b) && Forward(b, c)
    ensures Forward(a, c)
  {
    hide Later;
    LaterTrans(a.c, b.c, c.c);
  }

  /** A payment's storage carries the same history, extended by at most the proof it presented. */
  lemma PaymentGrows(s: World, e: Entry)
    ensures Payment(s, e).Out? ==> s.v.ca.hist <= Payment(s, e).v.ca.hist
    ensures e.RefreshCall? && Front(s, e).Done? ==> s.v.ca.hist <= Front(s, e).w.v.ca.hist
  {
    hide FromCursor, ByIds, Accrue, OwnerOf, Loose, LooseFee, Refund, Prove;
    if (e.RefreshCall? || e.RefreshAndSweepCall? || e.SweepBucketCall? || e.SweepBucketDepositsCall?)
       && Prove(s.v, s.c, e.verifier, Asked(e), e.proof, e.att).Some? {
      ProveAppends(s.v, s.c, e.verifier, Asked(e), e.proof, e.att);
    }
  }

  lemma EnterForward(s: World, e: Entry, cb: seq<Action>, accepted: bool)
    requires Inv(s)
    ensures Forward(s, Exec(s, Enter(e, cb, accepted)).w)
  {
    hide Inv, VaultInv, ExecAll, Later, MayFund, RefundDeposit, RefreshAndSweep, SweepDefault, SweepUntracked,
         SweepDeposits, SweepBucket, SweepBucketDeposits;
    LaterRefl(s.c);
    PaymentGrows(s, e);
    if Front(s, e).Call? {
      var h := Front(s, e).h;
      HandedSolvent(s, e, 0);
      HandedFrame(s, e);
      LockedFrame(h, cb);
      LaterTrans(s.c, h.c, ExecAll(h, cb).c);
    } else if e.FundCall? {
      BalanceIsApart(s.c, e.token, Get(s.c.bal, e.token) + e.amount);
    }
  }

  /** Handing over control changes only the vault's own storage and one balance. */
  lemma HandedFrame(s: World, e: Entry)
    requires Front(s, e).Call?
    ensures var h := Front(s, e).h; h.px == s.px && Later(s.c, h.c) && s.v.ca.hist <= h.v.ca.hist
  {
    hide Later, MayFund, RefundDeposit, RefreshAndSweep, SweepDefault, SweepUntracked, SweepDeposits, SweepBucket,
         SweepBucketDeposits;
    PaymentGrows(s, e);
    if Payment(s, e).Out? {
      var o := Payment(s, e);
      BalanceIsApart(s.c, o.token, Get(s.c.bal, o.token) - o.net);
    } else if e.FundCall? {
      BalanceIsApart(s.c, e.token, Get(s.c.bal, e.token) + e.received);
    } else if e.WithdrawFeesCall? {
      BalanceIsApart(s.c, e.token, Get(s.c.bal, e.token) - Outflow(s, e));
    }
  }

  /** Upgrades keep order: a later one is at least as new, and equally new only for the same wallet. */
  lemma UpgradeForward(s: World, caller: Address, identity: Word, impl: Address, p: Proof,
                       att: AlphaAttestation)
    requires Inv(s)
    ensures Forward(s, UpgradeTo(s, caller, identity, impl, p, att).w)
  {
    hide VaultInv, CtxOk, Solvent, Apply, Verifies, AuthoriseUpgrade, VaultFloor, Later, Accepted;
    LaterRefl(s.c);
    var ver := s.c.f.defaultVerifier;
    var r := UpgradeTo(s, caller, identity, impl, p, att);
    if r.ok {
      var (used, auth) := AuthoriseUpgrade(s, att).value;
      LastUpgradeIsCurrent(s);
      ApplyAccepts(s.v.ca, s.c, ver, p.origin, p.wallet, p.iat, auth);
      AcceptedAppends(s.v.ca, s.c, r.w.v.ca.hist[|s.v.ca.hist|], r.w.v.ca);
    }
  }

  lemma LastUpgradeIsCurrent(s: World)
    requires Inv(s)
    ensures s.px.iat <= s.c.now + FUTURE_SLACK
  {
    hide BooksInv, Authorised, PaidInv, PaidAddsUp, CacheInv;
    FloorsAreBounded(s.v.ca, s.c, 0);
  }

  lemma ExecForward(s: World, a: Action)
    requires Inv(s)
    ensures Forward(s, Exec(s, a).w)
  {
    hide Inv, Forward, Front, Back, OutsideStep;
    match a
    case Env(o) => EnvForward(s, o);
    case Upgrade(caller, identity, impl, p, att) => UpgradeForward(s, caller, identity, impl, p, att);
    case Enter(e, cb, accepted) => EnterForward(s, e, cb, accepted);
  }

  lemma EnvForward(s: World, o: Outside)
    requires Inv(s)
    ensures Forward(s, Exec(s, Env(o)).w)
  {
    hide VaultInv, CtxOk, Solvent, OutsideStep, Later;
    OutsideForward(s, o);
  }

  lemma {:induction false} RunForward(s: World, run: seq<Action>)
    requires Inv(s)
    ensures Forward(s, ExecAll(s, run)) && Inv(ExecAll(s, run))
    decreases |run|
  {
    hide Inv, Exec, Forward;
    if run == [] {
      ForwardRefl(s);
    } else {
      var s1 := Exec(s, run[0]).w;
      ExecInv(s, run[0]);
      ExecForward(s, run[0]);
      RunForward(s1, run[1..]);
      ForwardTrans(s, s1, ExecAll(s1, run[1..]));
    }
  }

  lemma ForwardRefl(s: World)
    ensures Forward(s, s)
  {
    LaterRefl(s.c);
  }

  /** Over any run the recorded upgrade never gets older, and one equally old names the same wallet. */
  lemma UpgradesNeverGoBack(s: World, run: seq<Action>)
    requires Reachable(s)
    ensures var w := ExecAll(s, run);
            s.px.iat <= w.px.iat && (s.px.iat == w.px.iat ==> s.px.wallet == w.px.wallet)
  {
    hide Inv;
    ReachableInv(s);
    RunForward(s, run);
  }

  /** An upgrade that fails changes nothing, and none succeeds while the vault's lock is held. */
  lemma UpgradeIsAtomic(s: World, caller: Address, identity: Word, impl: Address, p: Proof,
                        att: AlphaAttestation)
    ensures var r := Exec(s, Upgrade(caller, identity, impl, p, att));
            (!r.ok ==> r.w == s) && (s.v.locked ==> !r.ok)
  {
    hide Apply, Verifies, AuthoriseUpgrade, UpgradeProofNew, Claimable;
  }

  /** The state right after an administrator removes a signer key of an identity contract. */
  function Removed(s: World, identity: Address, caller: Address, key: Key): World {
    Exec(s, Env(KeyCall(identity, Remove(caller, key)))).w
  }

  /**
   Revocation reaches every vault: after a removal, whatever runs next, a proofless sweep under any verifier
   of that identity contract can pay only a wallet validated since by a proof whose signing key is accepted
   now; and that wallet is the one recorded at the removal unless the proof is newer (or none was recorded).
   */
  lemma RevocationReaches(s: World, ver: Address, caller: Address, key: Key, run: seq<Action>)
    requires Reachable(s) && IsPvium(s.c, ver)
    requires KeyStep(KeysOf(s.c, ver), Remove(caller, key), s.c.now).Some?
    requires var w := ExecAll(Removed(s, s.c.verifiers[ver].identity, caller, key), run);
             OwnerOf(w.v.ca, w.c, ver).Some?
    ensures var w := ExecAll(Removed(s, s.c.verifiers[ver].identity, caller, key), run);
            IsPvium(w.c, ver) && exists i: nat :: ValidatedSince(s, w, ver, i)
  {
    hide Inv, KeyStep, Exec, ExecAll, Later, ValidatedSince;
    ReachableInv(s);
    var identity := s.c.verifiers[ver].identity;
    RemovalBumps(s, ver, caller, key);
    var s1 := Removed(s, identity, caller, key);
    var w := ExecAll(s1, run);
    ExecInv(s, Env(KeyCall(identity, Remove(caller, key))));
    RunForward(s1, run);
    StandingAfter(s, s1, w, ver);
  }

  /** Acceptance i, made after state s, validated the wallet now paid, and its signer still stands. */
  ghost predicate ValidatedSince(s: World, w: World, ver: Address, i: nat) {
    && |s.v.ca.hist| <= i && Validated(w.v.ca, ver, i) && IsPvium(w.c, ver)
    && Some(w.v.ca.hist[i].wallet) == OwnerOf(w.v.ca, w.c, ver)
    && w.v.ca.hist[i].origin.signer in KeysOf(w.c, ver).keys
    && (Get(s.v.ca.owner, ver) == 0 || w.v.ca.hist[i].wallet == Get(s.v.ca.owner, ver)
        || w.v.ca.hist[i].iat > Get(s.v.ca.latest, ver))
  }

  lemma RemovalBumps(s: World, ver: Address, caller: Address, key: Key)
    requires IsPvium(s.c, ver) && KeyStep(KeysOf(s.c, ver), Remove(caller, key), s.c.now).Some?
    ensures var s1 := Removed(s, s.c.verifiers[ver].identity, caller, key);
            && s1.v == s.v && IsPvium(s1.c, ver) && s1.c.verifiers == s.c.verifiers
            && KeysOf(s1.c, ver).revision > KeysOf(s.c, ver).revision
  {
    hide OnCurve;
  }

  lemma StandingAfter(s: World, s1: World, w: World, ver: Address)
    requires Inv(s) && s1.v == s.v && Forward(s1, w) && Inv(w)
    requires IsPvium(s.c, ver) && IsPvium(s1.c, ver) && KeysOf(s1.c, ver).revision > KeysOf(s.c, ver).revision
    requires OwnerOf(w.v.ca, w.c, ver).Some?
    ensures IsPvium(w.c, ver) && exists i: nat :: ValidatedSince(s, w, ver, i)
  {
    hide BooksInv, Authorised, PaidInv, PaidAddsUp, Solvent, CtxOk;
    assert SameVerifier(s1.c.verifiers[ver], w.c.verifiers[ver]);
    FreshMeansSignerStands(w.v.ca, w.c, ver);
    assert KeysLater(KeysOf(s1.c, ver), KeysOf(w.c, ver));
    var i: nat :| Validated(w.v.ca, ver, i) && w.v.ca.hist[i].rev == KeysOf(w.c, ver).revision
                  && w.v.ca.hist[i].origin.signer in KeysOf(w.c, ver).keys;
    assert forall j :: 0 <= j < |s.v.ca.hist| ==> w.v.ca.hist[j] == s.v.ca.hist[j] && RecordHolds(s.v.ca.hist[j], s.c);
    assert |s.v.ca.hist| <= i;
    BestIsStable(s.v.ca, w.v.ca, ver);
    assert ValidatedSince(s, w, ver, i);
  }

  /** With a longer history the recorded owner changes only together with a newer time. */
  lemma BestIsStable(ca: Cache, ca': Cache, ver: Address)
    requires Refines(ca, ver) && Refines(ca', ver) && ca.hist <= ca'.hist
    ensures Get(ca.owner, ver) == 0 || Get(ca'.owner, ver) == Get(ca.owner, ver)
            || Get(ca'.latest, ver) > Get(ca.latest, ver)
  {
    if Get(ca.owner, ver) != 0 {
      var i: nat :| IsBest(ca.hist, ver, i) && Get(ca.owner, ver) == ca.hist[i].wallet
        && Get(ca.latest, ver) == ca.hist[i].iat;
      assert forall n :: 0 <= n < |ca.hist| ==> ca'.hist[n] == ca.hist[n];
      var j: nat :| IsBest(ca'.hist, ver, j) && Get(ca'.owner, ver) == ca'.hist[j].wallet
        && Get(ca'.latest, ver) == ca'.hist[j].iat;
      assert ca'.hist[j].iat == ca.hist[i].iat ==> i == j;
    }
  }

  /**
   No superseded wallet comes back: along any run a verifier's recorded time never falls, and the recorded
   owner is replaced only together with a newer time.
   */
  lemma OwnerMovesWithNewerProof(s: World, run: seq<Action>, ver: Address)
    requires Reachable(s)
    ensures var ca, ca' := s.v.ca, ExecAll(s, run).v.ca;
            && Get(ca.latest, ver) <= Get(ca'.latest, ver)
            && (Get(ca.owner, ver) != 0 ==>
                  && Get(ca'.owner, ver) != 0
                  && (Get(ca'.owner, ver) != Get(ca.owner, ver) ==> Get(ca'.latest, ver) > Get(ca.latest, ver)))
  {
    hide Inv, ExecAll, Later, Refines;
    ReachableInv(s);
    RunForward(s, run);
    RefinesOf(s, ver);
    RefinesOf(ExecAll(s, run), ver);
    BestIsStable(s.v.ca, ExecAll(s, run).v.ca, ver);
    LatestNeverFalls(s.v.ca, ExecAll(s, run).v.ca, ver);
  }

  lemma RefinesOf(s: World, ver: Address)
    requires Inv(s)
    ensures Refines(s.v.ca, ver) && forall i :: 0 <= i < |s.v.ca.hist| ==> s.v.ca.hist[i].wallet != 0
  {
    hide BooksInv, Authorised, PaidInv, PaidAddsUp, Solvent, CtxOk, Refines;
    assert forall i :: 0 <= i < |s.v.ca.hist| ==> RecordHolds(s.v.ca.hist[i], s.c);
  }

  lemma LatestNeverFalls(ca: Cache, ca': Cache, ver: Address)
    requires Refines(ca, ver) && Refines(ca', ver) && ca.hist <= ca'.hist
    requires forall i :: 0 <= i < |ca'.hist| ==> ca'.hist[i].wallet != 0
    ensures Get(ca.latest, ver) <= Get(ca'.latest, ver) && (Get(ca.owner, ver) != 0 ==> Get(ca'.owner, ver) != 0)
  {
    assert forall n :: 0 <= n < |ca.hist| ==> ca'.hist[n] == ca.hist[n];
    if !NoneUnder(ca.hist, ver) {
      var i: nat :| IsBest(ca.hist, ver, i) && Get(ca.owner, ver) == ca.hist[i].wallet
        && Get(ca.latest, ver) == ca.hist[i].iat;
      assert ca'.hist[i].verifier == ver;
    }
  }

  /** So a wallet that was replaced and is recorded again has presented a proof newer than its replacement's. */
  lemma ReturningWalletIsNewer(s: World, first: seq<Action>, second: seq<Action>, ver: Address)
    requires Reachable(s) && Get(s.v.ca.owner, ver) != 0
    requires var w := ExecAll(s, first); Get(w.v.ca.owner, ver) != Get(s.v.ca.owner, ver)
    requires var w := ExecAll(s, first); Get(ExecAll(w, second).v.ca.owner, ver) == Get(s.v.ca.owner, ver)
    ensures var w := ExecAll(s, first);
            Get(s.v.ca.latest, ver) < Get(w.v.ca.latest, ver) < Get(ExecAll(w, second).v.ca.latest, ver)
  {
    hide ExecAll;
    ReachableOn(s, first);
    OwnerMovesWithNewerProof(s, first, ver);
    OwnerMovesWithNewerProof(ExecAll(s, first), second, ver);
  }
}
