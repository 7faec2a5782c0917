/**
 Where things come from: over every run, each accepted proof, each payout, each deposit and each installed
 implementation is the work of one call that met its conditions in the state it found.
 */
module Provenance {
  import opened Types
  import opened KeySet
  import opened Factory
  import opened Books
  import opened Sweeps
  import opened OwnerCache
  import opened Vault
  import opened VaultProofs
  import opened System
  import opened SystemProofs
  import opened Claims
  import opened Calls
  import opened Settlement
  import opened Theorems

  // ------------------------------------------------------------------ presented proofs

  /** A proof as it is presented: under which verifier, for which constraint (0: none), with which attestation. */
  datatype Showing = Showing(verifier: Address, constraint: Word, proof: Proof, att: AlphaAttestation, upgrade: bool)

  /** What an action presents, if anything. */
  function Shown(s: World, a: Action): Option<Showing> {
    match a
    case Upgrade(_, _, _, p, att) => Some(Showing(s.c.f.defaultVerifier, 0, p, att, true))
    case Enter(e, _, _) =>
      if e.RefreshCall? || e.RefreshAndSweepCall? || e.SweepBucketCall? || e.SweepBucketDepositsCall?
      then Some(Showing(e.verifier, Asked(e), e.proof, e.att, false)) else None
    case _ => None
  }

  /** The attester of the day signed for this very call, in the current epoch, and the deadline has not passed. */
  predicate Attested(c: Ctx, att: AlphaAttestation) {
    && att.present && att.binds && c.now <= att.deadline && att.epoch == c.f.epoch
    && att.signer == c.f.attester != 0
  }

  /** The verifier's key can be read, and if it is in alpha the call is attested with an unused nonce. */
  predicate AlphaOk(c: Ctx, ver: Address, att: AlphaAttestation, used: set<nat>) {
    VkHash(c, ver).Some? && (IsAlpha(c.f, VkHash(c, ver).value) ==> Attested(c, att) && att.nonce !in used)
  }

  /** The verifier vouches for the proof: for this identity and constraint, by a key that is accepted now. */
  predicate Vouched(c: Ctx, ver: Address, identity: Word, constraint: Word, p: Proof) {
    && ver in c.verifiers && p.verifies && p.origin.identity == identity
    && (constraint != 0 ==> p.origin.evidence == constraint)
    && (c.verifiers[ver].Pvium? ==>
          && IsPvium(c, ver) && p.origin.signer in KeysOf(c, ver).keys
          && (constraint != 0 ==> c.verifiers[ver].supports))
  }

  /** No proof accepted under the verifier is newer. */
  ghost predicate Newest(h: seq<Acceptance>, ver: Address, iat: nat) {
    forall j :: 0 <= j < |h| && h[j].verifier == ver ==> h[j].iat <= iat
  }

  /** The proof will name the owner: it is newer than all, or as old and of the same wallet as the best. */
  ghost predicate Names(h: seq<Acceptance>, ver: Address, wallet: Address, iat: nat) {
    || (forall j :: 0 <= j < |h| && h[j].verifier == ver ==> h[j].iat < iat)
    || exists i: nat :: IsBest(h, ver, i) && h[i].wallet == wallet && h[i].iat == iat
  }

  /** What applying a proof needs: a wallet, a time not too far ahead nor behind, and a readable verifier. */
  ghost predicate Applicable(h: seq<Acceptance>, c: Ctx, ver: Address, p: Proof) {
    && p.wallet != 0 && p.iat <= c.now + 15 * 60 && Revision(c, ver).Some? && Newest(h, ver, p.iat)
    && (Names(h, ver, p.wallet, p.iat) ==> KeyOf(c, ver) != 0)
  }

  /** What the cache holds for a verifier, by its history. */
  lemma RecordedOwner(ca: Cache, c: Ctx, ver: Address, wallet: Address, iat: nat)
    requires CacheInv(ca, c)
    ensures Newest(ca.hist, ver, iat) <==> iat >= Get(ca.latest, ver)
    ensures Newest(ca.hist, ver, iat) ==>
              (Names(ca.hist, ver, wallet, iat)
               <==> iat > Get(ca.latest, ver) || Get(ca.owner, ver) == 0
                    || (wallet == Get(ca.owner, ver) && iat == Get(ca.latest, ver)))
  {
    hide OwnerFresh, Binding, IsDefaultFloor;
    assert Refines(ca, ver);
    if !NoneUnder(ca.hist, ver) {
      var i: nat :| IsBest(ca.hist, ver, i) && Get(ca.owner, ver) == ca.hist[i].wallet
        && Get(ca.latest, ver) == ca.hist[i].iat;
      assert RecordHolds(ca.hist[i], c);
      assert iat == ca.hist[i].iat ==> forall j: nat :: IsBest(ca.hist, ver, j) ==> j == i;
    }
  }

  lemma AppliesExactlyWhen(ca: Cache, c: Ctx, ver: Address, p: Proof, auth: Auth)
    requires CacheInv(ca, c)
    ensures Apply(ca, c, ver, p.origin, p.wallet, p.iat, auth).Some? <==> Applicable(ca.hist, c, ver, p)
  {
    hide OwnerFresh, CacheInv, Names, Newest, Revision, KeyOf;
    RecordedOwner(ca, c, ver, p.wallet, p.iat);
  }

  /** A proof is accepted exactly when the call is attested if need be, and verifier, proof and time are right. */
  lemma ProvesExactlyWhen(v: Vault, c: Ctx, ver: Address, constraint: Word, p: Proof, att: AlphaAttestation)
    requires CacheInv(v.ca, c)
    ensures Prove(v, c, ver, constraint, p, att).Some?
            <==> && AlphaOk(c, ver, att, v.nonces)
                 && (ver == c.f.defaultVerifier || ver in c.allowed)
                 && Vouched(c, ver, v.salt, constraint, p)
                 && Applicable(v.ca.hist, c, ver, p)
  {
    hide Apply, CacheInv, Names, Newest, Revision, KeyOf;
    AppliesExactlyWhen(v.ca, c, ver, p, Unattested);
    AppliesExactlyWhen(v.ca, c, ver, p, VaultNonce(att.nonce));
  }

  /** The same proof, or one as old for the same wallet, makes a void cache usable again. */
  lemma SameProofRenews(ca: Cache, c: Ctx, ver: Address, p: Proof, auth: Auth)
    requires CacheInv(ca, c) && p.wallet == Get(ca.owner, ver) && p.wallet != 0 && p.iat == Get(ca.latest, ver)
    requires Revision(c, ver).Some? && KeyOf(c, ver) != 0
    ensures var r := Apply(ca, c, ver, p.origin, p.wallet, p.iat, auth);
            && r.Some? && OwnerFresh(r.value, c, ver)
            && Get(r.value.owner, ver) == p.wallet && Get(r.value.latest, ver) == p.iat
  {
    FloorsAreBounded(ca, c, ver);
  }

  // ------------------------------------------------------------------ accepted proofs

  /** Acceptance r is what action a, in state s, presented; and it was right to accept it. */
  ghost predicate AcceptedAt(s: World, a: Action, r: Acceptance) {
    && Shown(s, a).Some?
    && var x := Shown(s, a).value;
       && (x.verifier == s.c.f.defaultVerifier || x.verifier in s.c.allowed)
       && Vouched(s.c, x.verifier, s.v.salt, x.constraint, x.proof)
       && Applicable(s.v.ca.hist, s.c, x.verifier, x.proof)
       && AlphaOk(s.c, x.verifier, x.att, if x.upgrade then s.px.used else s.v.nonces)
       && r.verifier == x.verifier && r.wallet == x.proof.wallet && r.iat == x.proof.iat && r.origin == x.proof.origin
       && r.asDefault == (x.verifier == s.c.f.defaultVerifier)
       && r.auth == (if !IsAlpha(s.c.f, VkHash(s.c, x.verifier).value) then Unattested
                     else if x.upgrade then ProxyNonce(x.att.nonce) else VaultNonce(x.att.nonce))
       && (a.Upgrade? ==> a.caller == x.proof.wallet && a.identity == s.v.salt)
  }

  /** A successful call that carries a proof makes history one right acceptance longer; no other moves it. */
  ghost predicate AcceptsOnly(s: World, a: Action, ok: bool, h: seq<Acceptance>) {
    if ok && Shown(s, a).Some?
    then |h| == |s.v.ca.hist| + 1 && s.v.ca.hist <= h && AcceptedAt(s, a, h[|s.v.ca.hist|])
    else h == s.v.ca.hist
  }

  lemma ProofAccepted(s: World, a: Action, x: Showing)
    requires Inv(s) && Shown(s, a) == Some(x) && !a.Upgrade?
    requires Prove(s.v, s.c, x.verifier, x.constraint, x.proof, x.att).Some?
    ensures AcceptsOnly(s, a, true, Prove(s.v, s.c, x.verifier, x.constraint, x.proof, x.att).value.ca.hist)
    ensures Prove(s.v, s.c, x.verifier, x.constraint, x.proof, x.att).value.nonces
            == if IsAlpha(s.c.f, VkHash(s.c, x.verifier).value) then s.v.nonces + {x.att.nonce} else s.v.nonces
  {
    hide BooksInv, CacheInv, Authorised, PaidInv, PaidAddsUp, CtxOk, Solvent, Apply, Accepted, Applicable,
         Vouched, AlphaOk, VerifyAlpha;
    var ver, p := x.verifier, x.proof;
    ProvesExactlyWhen(s.v, s.c, ver, x.constraint, p, x.att);
    var (v1, auth) := Authorise(s.v, s.c, ver, x.att).value;
    ApplyAccepts(s.v.ca, s.c, ver, p.origin, p.wallet, p.iat, auth);
    AcceptedAppends(s.v.ca, s.c, Apply(s.v.ca, s.c, ver, p.origin, p.wallet, p.iat, auth).value.hist[|s.v.ca.hist|],
                    Apply(s.v.ca, s.c, ver, p.origin, p.wallet, p.iat, auth).value);
  }

  /** A paying call's storage has the history its proof left. */
  lemma PaymentAccepts(s: World, e: Entry)
    requires Payment(s, e).Out?
    ensures AfterProof(s, e).Some? && Payment(s, e).v.ca == AfterProof(s, e).value.ca
    ensures Payment(s, e).v.nonces == AfterProof(s, e).value.nonces
  {
    hide FromCursor, ByIds, Accrue, OwnerOf, Loose, LooseFee, Refund, Prove;
  }

  lemma EnterAccepts(s: World, e: Entry, cb: seq<Action>, accepted: bool)
    requires Reachable(s)
    ensures var r := Exec(s, Enter(e, cb, accepted)); AcceptsOnly(s, Enter(e, cb, accepted), r.ok, r.w.v.ca.hist)
  {
    hide Inv, Exec, Payment, Prove, AcceptedAt, FundDone, DistributeDone, MayDeposit, Reachable;
    ReachableInv(s);
    InvParts(s);
    var a := Enter(e, cb, accepted);
    if Shown(s, a).Some? && Prove(s.v, s.c, e.verifier, Asked(e), e.proof, e.att).Some? {
      ProofAccepted(s, a, Shown(s, a).value);
    }
    if Pays(e) {
      PaymentCall(s, e, cb, accepted);
      if Exec(s, a).ok {
        PaymentAccepts(s, e);
      }
    } else if e.FundCall? {
      FundsExactlyWhen(s, e, cb, accepted);
      if Exec(s, a).ok {
        FundKeepsProofs(s, e, Exec(s, a).w);
      }
    } else if e.WithdrawFeesCall? {
      DistributesExactlyWhen(s, e, cb, accepted);
      if Exec(s, a).w != s {
        DistributionKeepsProofs(s, e, Exec(s, a).w, Cost(s, e, cb));
      }
    } else {
      RefreshIs(s, e, cb, accepted);
    }
  }

  lemma FundKeepsProofs(s: World, e: Entry, w: World)
    requires e.FundCall? && FundDone(s, e, w)
    ensures w.v.ca == s.v.ca
  {
  }

  lemma DistributionKeepsProofs(s: World, e: Entry, w: World, amount: int)
    requires e.WithdrawFeesCall? && DistributeDone(s, e, w, amount)
    ensures w.v.ca == s.v.ca
  {
  }

  /** A proof alone: the call succeeds exactly when it is accepted, and leaves what accepting it leaves. */
  lemma RefreshIs(s: World, e: Entry, cb: seq<Action>, accepted: bool)
    requires !s.v.locked && e.RefreshCall?
    ensures var r, v := Exec(s, Enter(e, cb, accepted)), Prove(s.v, s.c, e.verifier, 0, e.proof, e.att);
            r.ok == v.Some? && r.w == if v.Some? then s.(v := v.value) else s
  {
    hide Prove, ExecAll;
  }

  /** An upgrade, piece by piece: its checks, its attestation, and the proof applied through the hook. */
  lemma UpgradeIs(s: World, caller: Address, identity: Word, impl: Address, p: Proof, att: AlphaAttestation)
    requires Inv(s) && UpgradeTo(s, caller, identity, impl, p, att).ok
    ensures var ver := s.c.f.defaultVerifier;
            && AlphaOk(s.c, ver, att, s.px.used) && Vouched(s.c, ver, s.v.salt, 0, p) && p.wallet == caller
            && identity == s.v.salt
            && exists auth :: && Apply(s.v.ca, s.c, ver, p.origin, p.wallet, p.iat, auth)
                                 == Some(UpgradeTo(s, caller, identity, impl, p, att).w.v.ca)
                              && auth == (if IsAlpha(s.c.f, VkHash(s.c, ver).value) then ProxyNonce(att.nonce)
                                          else Unattested)
  {
    hide Apply, VaultInv, CtxOk, Solvent, UpgradeProofNew, Claimable;
    var ver := s.c.f.defaultVerifier;
    var (used, auth) := AuthoriseUpgrade(s, att).value;
    assert Apply(s.v.ca, s.c, ver, p.origin, p.wallet, p.iat, auth)
           == Some(UpgradeTo(s, caller, identity, impl, p, att).w.v.ca);
  }

  lemma UpgradeAccepts(s: World, caller: Address, identity: Word, impl: Address, p: Proof, att: AlphaAttestation)
    requires Inv(s)
    ensures var r := UpgradeTo(s, caller, identity, impl, p, att);
            AcceptsOnly(s, Upgrade(caller, identity, impl, p, att), r.ok, r.w.v.ca.hist)
  {
    hide VaultInv, CtxOk, Solvent, Apply, Accepted, Applicable, Vouched, AlphaOk, Inv;
    var ver, r := s.c.f.defaultVerifier, UpgradeTo(s, caller, identity, impl, p, att);
    if r.ok {
      UpgradeIs(s, caller, identity, impl, p, att);
      hide UpgradeTo;
      var auth :| Apply(s.v.ca, s.c, ver, p.origin, p.wallet, p.iat, auth) == Some(r.w.v.ca)
                  && auth == (if IsAlpha(s.c.f, VkHash(s.c, ver).value) then ProxyNonce(att.nonce) else Unattested);
      CacheOf(s);
      AppliesExactlyWhen(s.v.ca, s.c, ver, p, auth);
      ApplyAccepts(s.v.ca, s.c, ver, p.origin, p.wallet, p.iat, auth);
      AcceptedAppends(s.v.ca, s.c, r.w.v.ca.hist[|s.v.ca.hist|], r.w.v.ca);
    } else {
      RefusedUpgrade(s, caller, identity, impl, p, att);
    }
  }

  lemma RefusedUpgrade(s: World, caller: Address, identity: Word, impl: Address, p: Proof, att: AlphaAttestation)
    requires !UpgradeTo(s, caller, identity, impl, p, att).ok
    ensures UpgradeTo(s, caller, identity, impl, p, att).w == s
  {
    hide Apply, Verifies, AuthoriseUpgrade, UpgradeProofNew, Claimable;
  }

  lemma CacheOf(s: World)
    requires Inv(s)
    ensures CacheInv(s.v.ca, s.c)
  {
    hide BooksInv, CacheInv, Authorised, PaidInv, PaidAddsUp, CtxOk, Solvent;
  }

  /** One action accepts the proof it carries if it succeeds, and that was right; else it accepts none. */
  lemma ExecAccepts(s: World, a: Action)
    requires Reachable(s)
    ensures AcceptsOnly(s, a, Exec(s, a).ok, Exec(s, a).w.v.ca.hist)
  {
    hide Inv, AcceptedAt, Front, Back, OutsideStep, UpgradeTo, Reachable;
    ReachableInv(s);
    match a
    case Env(o) =>
    case Upgrade(caller, identity, impl, p, att) => UpgradeAccepts(s, caller, identity, impl, p, att);
    case Enter(e, cb, accepted) => EnterAccepts(s, e, cb, accepted);
  }

  // ------------------------------------------------------------------ along a run

  /** The state after the first n actions. */
  function Reached(s: World, run: seq<Action>, n: nat): World
    requires n <= |run|
  {
    ExecAll(s, run[..n])
  }

  lemma NextState(s: World, run: seq<Action>, n: nat)
    requires n < |run|
    ensures Reached(s, run, n + 1) == Exec(Reached(s, run, n), run[n]).w
  {
    hide Exec;
    assert run[..n + 1] == run[..n] + [run[n]];
    RunsCompose(s, run[..n], [run[n]]);
    var w := Reached(s, run, n);
    assert ExecAll(w, [run[n]]) == ExecAll(Exec(w, run[n]).w, []) == Exec(w, run[n]).w;
  }

  lemma PrefixState(s: World, run: seq<Action>, m: nat, n: nat)
    requires m <= n <= |run|
    ensures Reached(s, run[..n], m) == Reached(s, run, m)
  {
    assert run[..n][..m] == run[..m];
  }

  /**
   Over every run, each proof accepted during it was presented by one of its actions, to the default or an
   allowed verifier, which vouched for it as a proof of this vault's own identity; none accepted before under
   that verifier was newer; and while the verifier's key was in alpha the action carried an attestation of the
   attester of the day, for the current epoch, within its deadline, with a nonce never used before.
   */
  lemma {:induction false} ProofsWereRight(s: World, run: seq<Action>, i: nat)
    requires Reachable(s) && |s.v.ca.hist| <= i < |ExecAll(s, run).v.ca.hist|
    ensures exists n: nat :: n < |run| && AcceptedAt(Reached(s, run, n), run[n], ExecAll(s, run).v.ca.hist[i])
    decreases |run|
  {
    hide Exec, ExecAll, AcceptedAt, Reachable;
    var m := |run| - 1;
    EmptyRun(s);
    assert run != [] && run[..|run|] == run;
    NextState(s, run, m);
    ReachableOn(s, run[..m]);
    var w := Reached(s, run, m);
    ExecAccepts(w, run[m]);
    if i < |w.v.ca.hist| {
      ProofsWereRight(s, run[..m], i);
      var n: nat :| n < m && AcceptedAt(Reached(s, run[..m], n), run[..m][n], w.v.ca.hist[i]);
      PrefixState(s, run, n, m);
      assert AcceptedAt(Reached(s, run, n), run[n], ExecAll(s, run).v.ca.hist[i]);
    } else {
      assert AcceptedAt(w, run[m], ExecAll(s, run).v.ca.hist[i]);
    }
  }

  lemma EmptyRun(s: World)
    ensures ExecAll(s, []) == s
  {
  }

  /** In particular every proof ever accepted, through the vault or the proxy, is of this vault's own identity. */
  lemma OnlyOwnIdentity(s: World, i: nat)
    requires Reachable(s) && i < |s.v.ca.hist|
    ensures s.v.ca.hist[i].origin.identity == s.v.salt == s.px.identity
  {
    hide BooksInv, CacheInv, Authorised, PaidInv, PaidAddsUp, CtxOk, Solvent, Reachable;
    ReachableInv(s);
  }

  /** And which identity that is never changes. */
  lemma {:induction false} IdentityIsFixed(s: World, run: seq<Action>)
    requires Reachable(s)
    ensures ExecAll(s, run).v.salt == s.v.salt
    decreases |run|
  {
    hide Exec, Inv, Reachable;
    if run != [] {
      ReachableInv(s);
      ReachableOn(s, [run[0]]);
      NextState(s, run, 0);
      EmptyRun(s);
      assert run[..0] == [] && run[..1] == [run[0]];
      IdentityStays(s, run[0]);
      IdentityIsFixed(Exec(s, run[0]).w, run[1..]);
    }
  }

  /** No call into the vault touches its proxy. */
  lemma EnterKeepsProxy(s: World, e: Entry, cb: seq<Action>, accepted: bool)
    requires Inv(s)
    ensures Exec(s, Enter(e, cb, accepted)).w.px == s.px
  {
    hide Inv, Front, Back, Later, ExecAll;
    if Front(s, e).Call? {
      HandedSolvent(s, e, 0);
      HandedFrame(s, e);
      LockedFrame(Front(s, e).h, cb);
      BackKeepsProxy(s, e, ExecAll(Front(s, e).h, cb));
    } else {
      DoneKeepsProxy(s, e);
    }
  }

  lemma IdentityStays(s: World, a: Action)
    requires Inv(s)
    ensures Exec(s, a).w.px.identity == s.px.identity && Exec(s, a).w.v.salt == s.v.salt
  {
    hide Inv, Exec;
    ExecInv(s, a);
    InvParts(s);
    InvParts(Exec(s, a).w);
    match a
    case Enter(e, cb, accepted) => EnterKeepsProxy(s, e, cb, accepted);
    case Upgrade(caller, identity, impl, p, att) => UpgradeKeepsIdentity(s, caller, identity, impl, p, att);
    case Env(o) => EnvKeepsProxy(s, o);
  }

  lemma EnvKeepsProxy(s: World, o: Outside)
    ensures Exec(s, Env(o)).w.px == s.px
  {
    hide OutsideStep;
  }

  lemma BackKeepsProxy(s: World, e: Entry, h: World)
    ensures Back(s, e, h).Some? ==> Back(s, e, h).value.px == h.px
  {
  }

  lemma DoneKeepsProxy(s: World, e: Entry)
    ensures Front(s, e).Done? ==> Front(s, e).w.px == s.px
  {
    hide RefundDeposit, RefreshAndSweep, SweepDefault, SweepUntracked, SweepDeposits, SweepBucket,
         SweepBucketDeposits, Prove, MayFund;
  }

  lemma UpgradeKeepsIdentity(s: World, caller: Address, identity: Word, impl: Address, p: Proof,
                             att: AlphaAttestation)
    ensures Exec(s, Upgrade(caller, identity, impl, p, att)).w.px.identity == s.px.identity
  {
    hide Apply, Verifies, AuthoriseUpgrade, UpgradeProofNew, Claimable;
  }

  // ------------------------------------------------------------------ upgrades

  /** The floors an upgrade compares with are all of them: none is ever far enough ahead to be discarded. */
  lemma FloorsCount(s: World, p: Proof)
    requires Inv(s)
    ensures UpgradeProofNew(s, p)
            <==> && p.iat <= s.c.now + 15 * 60
                 && p.iat >= Get(s.v.ca.latest, s.c.f.defaultVerifier) && p.iat >= s.v.ca.untracked
                 && (p.iat == s.px.iat ==> p.wallet == s.px.wallet)
  {
    hide BooksInv, CacheInv, Authorised, PaidInv, PaidAddsUp, CtxOk, Solvent;
    FloorsAreBounded(s.v.ca, s.c, s.c.f.defaultVerifier);
  }

  lemma DefaultFloorIs(ca: Cache, iat: nat)
    requires IsDefaultFloor(ca.hist, ca.untracked)
    ensures iat >= ca.untracked <==> forall j :: 0 <= j < |ca.hist| && ca.hist[j].asDefault ==> ca.hist[j].iat <= iat
  {
  }

  lemma FloorOf(s: World)
    requires Inv(s)
    ensures IsDefaultFloor(s.v.ca.hist, s.v.ca.untracked) && CacheInv(s.v.ca, s.c) && !s.v.locked
            && s.px.identity == s.v.salt
  {
    hide BooksInv, Authorised, PaidInv, PaidAddsUp, CtxOk, Solvent, Records, Refines, Binding, IsDefaultFloor;
  }

  /** The hook takes the proof exactly when it can be applied and names the owner, and then it does. */
  lemma HookTakes(s: World, ver: Address, p: Proof, auth: Auth)
    requires Inv(s) && ver == s.c.f.defaultVerifier
    ensures var r := AcceptOwnerProof(s.v, s.c, ver, p.origin, p.wallet, p.iat, auth);
            && (r.Some? <==> Applicable(s.v.ca.hist, s.c, ver, p) && Names(s.v.ca.hist, ver, p.wallet, p.iat))
            && (r.Some? ==> Get(r.value.ca.owner, ver) == p.wallet && Get(r.value.ca.latest, ver) >= p.iat)
  {
    hide Inv, CacheInv, Apply, Names, Newest, Revision, KeyOf, IsDefaultFloor;
    FloorOf(s);
    AppliesExactlyWhen(s.v.ca, s.c, ver, p, auth);
    RecordedOwner(s.v.ca, s.c, ver, p.wallet, p.iat);
    if Apply(s.v.ca, s.c, ver, p.origin, p.wallet, p.iat, auth).Some? {
      ApplyAccepts(s.v.ca, s.c, ver, p.origin, p.wallet, p.iat, auth);
    }
  }

  lemma AuthorisedExactlyWhen(s: World, att: AlphaAttestation)
    ensures AuthoriseUpgrade(s, att).Some? <==> AlphaOk(s.c, s.c.f.defaultVerifier, att, s.px.used)
  {
  }

  lemma VouchedIs(c: Ctx, ver: Address, identity: Word, constraint: Word, p: Proof)
    ensures p.wallet != 0 ==> (Verifies(c, ver, identity, constraint, p) <==> Vouched(c, ver, identity, constraint, p))
  {
  }

  /** What an upgrade needs of the call, the target and the proof. */
  ghost predicate MayUpgrade(s: World, caller: Address, identity: Word, impl: Address, p: Proof,
                             att: AlphaAttestation)
  {
    var ver, h := s.c.f.defaultVerifier, s.v.ca.hist;
    && identity == s.v.salt && impl in s.c.f.registered && impl in s.c.guarded && impl != s.px.impl
    && AlphaOk(s.c, ver, att, s.px.used) && Vouched(s.c, ver, s.v.salt, 0, p) && p.wallet == caller
    && Applicable(h, s.c, ver, p) && Names(h, ver, p.wallet, p.iat)
    && (forall j :: 0 <= j < |h| && h[j].asDefault ==> h[j].iat <= p.iat)
    && (p.iat == s.px.iat ==> p.wallet == s.px.wallet)
  }

  /**
   An upgrade succeeds exactly for this vault's own identity, to another registered implementation that has the
   alpha guard, by the wallet of a proof that the default verifier vouches for, is attested if need be, is at
   least as new as every proof accepted under or as the default, and names the owner.
   */
  lemma UpgradesExactlyWhen(s: World, caller: Address, identity: Word, impl: Address, p: Proof, att: AlphaAttestation)
    requires Reachable(s)
    ensures UpgradeTo(s, caller, identity, impl, p, att).ok <==> MayUpgrade(s, caller, identity, impl, p, att)
  {
    hide Inv, Apply, AcceptOwnerProof, Applicable, Names, Verifies, Vouched, AlphaOk, UpgradeProofNew,
         AuthoriseUpgrade, Reachable, IsDefaultFloor, CacheInv;
    ReachableInv(s);
    var ver := s.c.f.defaultVerifier;
    FloorOf(s);
    FloorsCount(s, p);
    DefaultFloorIs(s.v.ca, p.iat);
    ApplicableNeeds(s.v.ca, s.c, ver, p);
    AuthorisedExactlyWhen(s, att);
    VouchedIs(s.c, ver, identity, 0, p);
    if AuthoriseUpgrade(s, att).Some? {
      HookTakes(s, ver, p, AuthoriseUpgrade(s, att).value.1);
    }
  }

  lemma ApplicableNeeds(ca: Cache, c: Ctx, ver: Address, p: Proof)
    requires CacheInv(ca, c)
    ensures Applicable(ca.hist, c, ver, p) ==>
              p.wallet != 0 && p.iat <= c.now + 15 * 60 && p.iat >= Get(ca.latest, ver)
  {
    hide CacheInv, Names, Newest, Revision, KeyOf;
    RecordedOwner(ca, c, ver, p.wallet, p.iat);
  }

  /** The installed implementation changes only by such an upgrade. */
  lemma InstallsOnly(s: World, a: Action)
    requires Reachable(s)
    ensures var w := Exec(s, a).w;
            && (a.Upgrade? && Exec(s, a).ok ==>
                  MayUpgrade(s, a.caller, a.identity, a.impl, a.proof, a.att) && w.px.impl == a.impl)
            && (!(a.Upgrade? && Exec(s, a).ok) ==> w.px.impl == s.px.impl)
  {
    hide Inv, Exec, UpgradeTo, MayUpgrade, Reachable;
    ReachableInv(s);
    InvParts(s);
    match a
    case Upgrade(caller, identity, impl, p, att) =>
      UpgradesExactlyWhen(s, caller, identity, impl, p, att);
      UpgradeInstalls(s, caller, identity, impl, p, att);
    case Enter(e, cb, accepted) => EnterKeepsProxy(s, e, cb, accepted);
    case Env(o) => EnvKeepsProxy(s, o);
  }

  lemma UpgradeInstalls(s: World, caller: Address, identity: Word, impl: Address, p: Proof, att: AlphaAttestation)
    ensures var r := Exec(s, Upgrade(caller, identity, impl, p, att));
            && r == UpgradeTo(s, caller, identity, impl, p, att)
            && r.w.px.impl == if r.ok then impl else s.px.impl
  {
    hide Apply, Verifies, AuthoriseUpgrade, UpgradeProofNew, Claimable;
  }

  /** Action n installed it, from the state it found, as an upgrade that was right. */
  ghost predicate InstalledAt(s: World, run: seq<Action>, n: nat, impl: Address) {
    && n < |run| && run[n].Upgrade? && run[n].impl == impl
    && MayUpgrade(Reached(s, run, n), run[n].caller, run[n].identity, impl, run[n].proof, run[n].att)
  }

  /**
   Over every run, whatever implementation is installed was so from the start, or was installed by an upgrade at
   whose step it was registered and guarded, for this vault's own identity, by the owner of the vault.
   */
  lemma {:induction false} ImplementationsWereRight(s: World, run: seq<Action>)
    requires Reachable(s)
    ensures ExecAll(s, run).px.impl == s.px.impl
            || exists n: nat :: InstalledAt(s, run, n, ExecAll(s, run).px.impl)
    decreases |run|
  {
    hide Exec, ExecAll, MayUpgrade, Reachable;
    EmptyRun(s);
    if run != [] {
      var m := |run| - 1;
      assert run[..|run|] == run;
      NextState(s, run, m);
      ReachableOn(s, run[..m]);
      var w := Reached(s, run, m);
      InstallsOnly(w, run[m]);
      if run[m].Upgrade? && Exec(w, run[m]).ok {
        assert InstalledAt(s, run, m, ExecAll(s, run).px.impl);
      } else {
        ImplementationsWereRight(s, run[..m]);
        if exists n: nat :: InstalledAt(s, run[..m], n, w.px.impl) {
          var n: nat :| InstalledAt(s, run[..m], n, w.px.impl);
          PrefixState(s, run, n, m);
          assert InstalledAt(s, run, n, w.px.impl);
        }
      }
    }
  }

  // ------------------------------------------------------------------ payouts and deposits

  /** Action n is a sweep that succeeded as SweepDone says and made payout i. */
  ghost predicate PaidAt(s: World, run: seq<Action>, n: nat, i: nat) {
    && n < |run| && run[n].Enter? && Pays(run[n].e) && !run[n].e.RefundCall?
    && |Reached(s, run, n).v.paid| == i
    && SweepDone(Reached(s, run, n), run[n].e, Exec(Reached(s, run, n), run[n]).w)
  }

  /** Action n is a well-formed funding call that recorded deposit i as FundDone says. */
  ghost predicate FundedAt(s: World, run: seq<Action>, n: nat, i: nat) {
    && n < |run| && run[n].Enter? && run[n].e.FundCall?
    && |Reached(s, run, n).v.k.deposits| == i
    && MayDeposit(Reached(s, run, n), run[n].e)
    && FundDone(Reached(s, run, n), run[n].e, Exec(Reached(s, run, n), run[n]).w)
  }

  /** One action makes at most one payout, by a sweep, or one deposit, by a funding call; records stay. */
  ghost predicate Recording(s: World, a: Action, w: World) {
    && Grown(s, w)
    && (|w.v.paid| == |s.v.paid|
        || (|w.v.paid| == |s.v.paid| + 1 && a.Enter? && Pays(a.e) && !a.e.RefundCall? && SweepDone(s, a.e, w)))
    && (|w.v.k.deposits| == |s.v.k.deposits|
        || (|w.v.k.deposits| == |s.v.k.deposits| + 1 && a.Enter? && a.e.FundCall? && MayDeposit(s, a.e)
            && FundDone(s, a.e, w)))
    && (forall i :: 0 <= i < |s.v.k.deposits| && s.v.k.deposits[i].consumed ==> w.v.k.deposits[i].consumed)
  }

  lemma EnterRecords(s: World, e: Entry, cb: seq<Action>, accepted: bool)
    requires Reachable(s)
    ensures Recording(s, Enter(e, cb, accepted), Exec(s, Enter(e, cb, accepted)).w)
  {
    hide Inv, Exec, Payment, Prove, SweepDone, FundDone, DistributeDone, MayDeposit, RefundDone, Reachable, Cost;
    ReachableInv(s);
    InvParts(s);
    var r := Exec(s, Enter(e, cb, accepted));
    if e.RefundCall? {
      PaymentCall(s, e, cb, accepted);
      RefundsExactlyWhen(s, e.caller, e.id, cb, accepted);
      if r.ok {
        RefundRecords(s, e, cb, accepted);
      }
    } else if Pays(e) {
      PaymentCall(s, e, cb, accepted);
      SweepsDo(s, e, cb, accepted);
      if r.ok {
        SweepRecords(s, e, cb, accepted);
      }
    } else if e.FundCall? {
      FundsExactlyWhen(s, e, cb, accepted);
      if r.ok {
        FundRecords(s, e, cb, accepted);
      }
    } else if e.WithdrawFeesCall? {
      DistributesExactlyWhen(s, e, cb, accepted);
      if r.w != s {
        DistributionRecords(s, e, r.w, Cost(s, e, cb));
      }
    } else {
      RefreshIs(s, e, cb, accepted);
      if Prove(s.v, s.c, e.verifier, 0, e.proof, e.att).Some? {
        ProveAppends(s.v, s.c, e.verifier, 0, e.proof, e.att);
      }
    }
  }

  lemma RefundRecords(s: World, e: Entry, cb: seq<Action>, accepted: bool)
    requires e.RefundCall? && RefundDone(s, Exec(s, Enter(e, cb, accepted)).w, e.id)
    requires Later(s.c, Exec(s, Enter(e, cb, accepted)).w.c)
    ensures Recording(s, Enter(e, cb, accepted), Exec(s, Enter(e, cb, accepted)).w)
  {
    hide Exec;
  }

  lemma SweepRecords(s: World, e: Entry, cb: seq<Action>, accepted: bool)
    requires Pays(e) && !e.RefundCall? && SweepDone(s, e, Exec(s, Enter(e, cb, accepted)).w)
    requires Later(s.c, Exec(s, Enter(e, cb, accepted)).w.c)
    ensures Recording(s, Enter(e, cb, accepted), Exec(s, Enter(e, cb, accepted)).w)
  {
    hide Exec, Wanted, SurplusDue, OpenSum, OpenFees, LogsClaims;
    var w := Exec(s, Enter(e, cb, accepted)).w;
    SweepGrows(s, e, w);
  }

  lemma FundRecords(s: World, e: Entry, cb: seq<Action>, accepted: bool)
    requires e.FundCall? && MayDeposit(s, e) && FundDone(s, e, Exec(s, Enter(e, cb, accepted)).w)
    ensures Recording(s, Enter(e, cb, accepted), Exec(s, Enter(e, cb, accepted)).w)
  {
    hide Exec, MayDeposit, RateOf;
    var w := Exec(s, Enter(e, cb, accepted)).w;
    assert forall i :: 0 <= i < |s.v.k.deposits| ==> w.v.k.deposits[i] == w.v.k.deposits[..|s.v.k.deposits|][i];
  }

  lemma DistributionRecords(s: World, e: Entry, w: World, amount: int)
    requires e.WithdrawFeesCall? && DistributeDone(s, e, w, amount)
    ensures Grown(s, w) && w.v.paid == s.v.paid && w.v.k.deposits == s.v.k.deposits
  {
  }

  lemma ExecRecords(s: World, a: Action)
    requires Reachable(s)
    ensures Recording(s, a, Exec(s, a).w)
  {
    hide Inv, Front, Back, OutsideStep, UpgradeTo, SweepDone, FundDone, MayDeposit, Reachable, Later;
    ReachableInv(s);
    match a
    case Env(o) => TimeGoesOn(s, o);
    case Upgrade(caller, identity, impl, p, att) => UpgradeMovesNothing(s, caller, identity, impl, p, att);
    case Enter(e, cb, accepted) => EnterRecords(s, e, cb, accepted);
  }

  lemma TimeGoesOn(s: World, o: Outside)
    requires Inv(s)
    ensures s.c.now <= OutsideStep(s, o).now
  {
    hide VaultInv, CtxOk, OutsideStep;
    OutsideForward(s, o);
  }

  /**
   Over every run, each payout made during it is the work of one sweep, which took what it was asked for in the
   state it found, at the policy's rate of that moment, and each deposit that of one funding call.
   */
  lemma {:induction false} RecordsWereRight(s: World, run: seq<Action>, i: nat)
    requires Reachable(s)
    ensures |s.v.paid| <= i < |ExecAll(s, run).v.paid| ==> exists n: nat :: PaidAt(s, run, n, i)
    ensures |s.v.k.deposits| <= i < |ExecAll(s, run).v.k.deposits| ==> exists n: nat :: FundedAt(s, run, n, i)
    decreases |run|
  {
    hide Exec, ExecAll, SweepDone, FundDone, MayDeposit, Reachable, Grown;
    EmptyRun(s);
    if run != [] {
      var m := |run| - 1;
      assert run[..|run|] == run;
      NextState(s, run, m);
      ReachableOn(s, run[..m]);
      var w := Reached(s, run, m);
      ExecRecords(w, run[m]);
      RecordsWereRight(s, run[..m], i);
      if i < |w.v.paid| && exists n: nat :: PaidAt(s, run[..m], n, i) {
        var n: nat :| PaidAt(s, run[..m], n, i);
        PrefixState(s, run, n, m);
        assert PaidAt(s, run, n, i);
      } else if i == |w.v.paid| < |ExecAll(s, run).v.paid| {
        assert PaidAt(s, run, m, i);
      }
      if i < |w.v.k.deposits| && exists n: nat :: FundedAt(s, run[..m], n, i) {
        var n: nat :| FundedAt(s, run[..m], n, i);
        PrefixState(s, run, n, m);
        assert FundedAt(s, run, n, i);
      } else if i == |w.v.k.deposits| < |ExecAll(s, run).v.k.deposits| {
        assert FundedAt(s, run, m, i);
      }
    }
  }

  /** Along every run deposits keep their terms, and what is consumed stays so; log and payouts only grow. */
  lemma {:induction false} RecordsStay(s: World, run: seq<Action>)
    requires Reachable(s)
    ensures Grown(s, ExecAll(s, run))
    ensures forall i :: 0 <= i < |s.v.k.deposits| && s.v.k.deposits[i].consumed
                        ==> ExecAll(s, run).v.k.deposits[i].consumed
    decreases |run|
  {
    hide Exec, ExecAll, SweepDone, FundDone, MayDeposit, Reachable;
    EmptyRun(s);
    if run != [] {
      var m := |run| - 1;
      assert run[..|run|] == run;
      NextState(s, run, m);
      ReachableOn(s, run[..m]);
      ExecRecords(Reached(s, run, m), run[m]);
      RecordsStay(s, run[..m]);
    }
  }

  // ------------------------------------------------------------------ attestations expire

  /** A decision that voids the attestations made before it. */
  predicate Voids(op: FactoryOp) {
    op.SetAlphaCall? || op.SetAttesterCall?
  }

  lemma VoidingMoves(f: FactoryState, op: FactoryOp, now: nat)
    requires Voids(op) && FactoryStep(f, op, now).Some?
    ensures FactoryAfter(f, op, now).epoch == f.epoch + 1
  {
  }

  /**
   Once the owner has changed a key's alpha status or the attester, no attestation for the epoch before is ever
   good for anything again: whatever runs next, a proof accepted with it is under a released key.
   */
  lemma OldAttestationsDie(s: World, op: FactoryOp, run: seq<Action>, a: Action)
    requires Reachable(s) && Voids(op) && FactoryStep(s.c.f, op, s.c.now).Some?
    requires var w := ExecAll(Exec(s, Env(Govern(op))).w, run);
             && Exec(w, a).w.v.ca.hist != w.v.ca.hist
             && Shown(w, a).Some? && Shown(w, a).value.att.epoch <= s.c.f.epoch
    ensures var w := ExecAll(Exec(s, Env(Govern(op))).w, run);
            var key := VkHash(w.c, Shown(w, a).value.verifier);
            key.Some? && !IsAlpha(w.c.f, key.value)
  {
    hide Exec, ExecAll, Reachable, Inv, Applicable, Vouched, FactoryStep;
    var s1 := Exec(s, Env(Govern(op))).w;
    VoidingMoves(s.c.f, op, s.c.now);
    GovernedEpoch(s, op);
    ReachableOn(s, [Env(Govern(op))]);
    NextState(s, [Env(Govern(op))], 0);
    EmptyRun(s);
    assert [Env(Govern(op))][..0] == [] && [Env(Govern(op))][..1] == [Env(Govern(op))];
    ReachableInv(s1);
    RunForward(s1, run);
    ReachableOn(s1, run);
    ExecAccepts(ExecAll(s1, run), a);
  }

  lemma GovernedEpoch(s: World, op: FactoryOp)
    ensures Exec(s, Env(Govern(op))).w.c.f == FactoryAfter(s.c.f, op, s.c.now)
  {
    hide FactoryAfter;
  }
}
