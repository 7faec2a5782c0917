/**
 P2IDVault's operations on its storage as a value. Each takes what it reads from outside (Ctx) and
 returns the storage it leaves together with the payment it is about to send, or Revert.
 */
module Vault {
  import opened Types
  import opened KeySet
  import opened Factory
  import opened Books
  import opened Sweeps
  import opened OwnerCache

  /**
   One sweep's payment: `untracked` is the part of `gross` that no deposit recorded, `rate` the rate quoted for
   it. `seen` counts the proofs accepted by then, `events` the events logged.
   */
  datatype Payout = Payout(
    verifier: Address, constraint: Word, token: Address, to: Address,
    gross: nat, fee: nat, untracked: nat, byDefault: bool, seen: nat, rate: nat, events: nat)

  /** `salt` is the commitment to the identity this vault belongs to. */
  datatype Vault = Vault(k: Books, ca: Cache, nonces: set<nat>, paid: seq<Payout>, locked: bool,
                         salt: Word, minWindow: nat, maxWindow: nat)

  /** An alpha attestation; `binds` says that its signature covers this vault, caller, call and nonce. */
  datatype AlphaAttestation = AlphaAttestation(present: bool, nonce: nat, deadline: nat, epoch: nat, signer: Address,
                                               binds: bool)

  /** The storage an operation leaves and the transfer it makes next. */
  datatype Out = Revert | Out(v: Vault, token: Address, to: Address, net: nat)

  // ------------------------------------------------------------------ authorisation and proofs

  /** The factory's check: unexpired, for the current epoch, by the current attester. */
  predicate VerifyAlpha(f: FactoryState, now: nat, att: AlphaAttestation) {
    now <= att.deadline && att.binds && att.epoch == f.epoch && att.signer == f.attester && att.signer != 0
  }

  /** The alpha modifier: while the verifier's key is in alpha, spend a fresh attestation nonce. */
  function Authorise(v: Vault, c: Ctx, ver: Address, att: AlphaAttestation): Option<(Vault, Auth)> {
    match VkHash(c, ver)
    case None => None
    case Some(key) =>
      if !IsAlpha(c.f, key) then Some((v, Unattested))
      else if !att.present || att.nonce in v.nonces || !VerifyAlpha(c.f, c.now, att) then None
      else Some((v.(nonces := v.nonces + {att.nonce}), VaultNonce(att.nonce)))
  }

  /** Verify a proof for this vault, and for a constraint unless it is 0, and apply its result. */
  function Present(v: Vault, c: Ctx, ver: Address, constraint: Word, p: Proof, auth: Auth): Option<Vault> {
    if !Claimable(c, ver) || !Verifies(c, ver, v.salt, constraint, p) then None
    else
      match Apply(v.ca, c, ver, p.origin, p.wallet, p.iat, auth)
      case None => None
      case Some(ca) => Some(v.(ca := ca))
  }

  /** Authorise, then present: the common start of every call that carries a proof. */
  function Prove(v: Vault, c: Ctx, ver: Address, constraint: Word, p: Proof, att: AlphaAttestation): Option<Vault> {
    match Authorise(v, c, ver, att)
    case None => None
    case Some((v1, auth)) => Present(v1, c, ver, constraint, p, auth)
  }

  // ------------------------------------------------------------------ money readings

  predicate KnownToken(c: Ctx, t: Address) {
    t == NATIVE || t in c.bal
  }

  function Held(k: Books, t: Address): int {
    Get(k.tracked, t) + Get(k.feesTotal, t)
  }

  /** Reported balance minus what deposits and fees hold, floored at zero; None when it cannot be read. */
  function Untracked(k: Books, c: Ctx, t: Address): Option<nat> {
    if !KnownToken(c, t) then None
    else Some(if Get(c.bal, t) > Held(k, t) then Get(c.bal, t) - Held(k, t) else 0)
  }

  /** The policy's rate, capped; a failed query reads as zero. */
  function Quote(c: Ctx, ver: Address, t: Address): nat {
    var q := Get(c.quotes, (ver, t));
    if q <= 0 then 0 else if q > MAX_FEE_BPS then MAX_FEE_BPS else q
  }

  // ------------------------------------------------------------------ payouts

  /** Keep the fee accrued under the verifier and pay the rest. */
  function Pay(v: Vault, c: Ctx, ver: Address, constraint: Word, t: Address, to: Address,
               gross: nat, fee: nat, untracked: nat): Out
  {
    if fee > gross then Revert
    else
      Out(v.(k := Accrue(v.k, ver, t, fee),
             paid := v.paid + [Payout(ver, constraint, t, to, gross, fee, untracked,
                                      ver == c.f.defaultVerifier, |v.ca.hist|, Quote(c, ver, t), |v.k.log|)]),
          t, to, gross - fee)
  }

  /** The untracked surplus this sweep includes; None when the balance cannot be read. */
  function Loose(v: Vault, c: Ctx, ver: Address, t: Address): Option<nat> {
    if PaysUntracked(v.ca, c, ver) then Untracked(v.k, c, t) else Some(0)
  }

  /** Fees on untracked funds are quoted now; the product must fit 256 bits. */
  function LooseFee(c: Ctx, ver: Address, t: Address, untracked: nat): Option<nat> {
    if untracked * Quote(c, ver, t) > MAX_U256 then None else Some(untracked * Quote(c, ver, t) / BPS)
  }

  function SweepDefault(v: Vault, c: Ctx, ver: Address, t: Address, limit: nat): Out {
    match OwnerOf(v.ca, c, ver)
    case None => Revert
    case Some(to) =>
      match Loose(v, c, ver, t)
      case None => Revert
      case Some(u) =>
        match LooseFee(c, ver, t, u)
        case None => Revert
        case Some(uFee) =>
          var w := FromCursor(v.k, Bucket(ver, 0, t), limit, to);
          Pay(v.(k := w.k), c, ver, 0, t, to, w.gross + u, w.fee + uFee, u)
  }

  function SweepUntracked(v: Vault, c: Ctx, t: Address): Out {
    var ver := c.f.defaultVerifier;
    match OwnerOf(v.ca, c, ver)
    case None => Revert
    case Some(to) =>
      if Get(v.ca.latest, ver) < v.ca.untracked then Revert
      else
        match Untracked(v.k, c, t)
        case None => Revert
        case Some(u) =>
          match LooseFee(c, ver, t, u)
          case None => Revert
          case Some(uFee) => Pay(v, c, ver, 0, t, to, u, uFee, u)
  }

  function SweepDeposits(v: Vault, c: Ctx, ver: Address, t: Address, ids: seq<nat>): Out {
    match OwnerOf(v.ca, c, ver)
    case None => Revert
    case Some(to) =>
      match ByIds(v.k, Bucket(ver, 0, t), ids, |ids|, to)
      case None => Revert
      case Some(w) => Pay(v.(k := w.k), c, ver, 0, t, to, w.gross, w.fee, 0)
  }

  /** A constrained bucket pays the wallet its own proof resolves to. */
  function SweepBucket(v: Vault, c: Ctx, ver: Address, constraint: Word, t: Address, p: Proof, limit: nat,
                       att: AlphaAttestation): Out
  {
    match Prove(v, c, ver, constraint, p, att)
    case None => Revert
    case Some(v1) =>
      if constraint == 0 then Revert
      else
        var w := FromCursor(v1.k, Bucket(ver, constraint, t), limit, p.wallet);
        Pay(v1.(k := w.k), c, ver, constraint, t, p.wallet, w.gross, w.fee, 0)
  }

  function SweepBucketDeposits(v: Vault, c: Ctx, ver: Address, constraint: Word, t: Address, p: Proof, ids: seq<nat>,
                               att: AlphaAttestation): Out
  {
    match Prove(v, c, ver, constraint, p, att)
    case None => Revert
    case Some(v1) =>
      if constraint == 0 then Revert
      else
        match ByIds(v1.k, Bucket(ver, constraint, t), ids, |ids|, p.wallet)
        case None => Revert
        case Some(w) => Pay(v1.(k := w.k), c, ver, constraint, t, p.wallet, w.gross, w.fee, 0)
  }

  function RefreshAndSweep(v: Vault, c: Ctx, ver: Address, p: Proof, t: Address, limit: nat,
                           att: AlphaAttestation): Out
  {
    match Prove(v, c, ver, 0, p, att)
    case None => Revert
    case Some(v1) => SweepDefault(v1, c, ver, t, limit)
  }

  /** Give an unconsumed deposit back, whole, to its funder once its window has passed. */
  function RefundDeposit(v: Vault, c: Ctx, caller: Address, id: nat): Out {
    if id >= |v.k.deposits| then Revert
    else
      var d := v.k.deposits[id];
      if d.funder != caller || d.consumed || c.now <= d.fundedAt + d.window then Revert
      else Out(v.(k := Refund(v.k, id)), d.token, caller, d.amount)
  }

  // ------------------------------------------------------------------ funding

  /** The checks made before any money moves. */
  predicate MayFund(v: Vault, c: Ctx, funder: Address, ver: Address, amount: nat, constraint: Word, window: nat) {
    && funder != 0 && ver in c.allowed
    && (constraint != 0 ==> SupportsConstraints(c, ver) && Get(v.k.uses, (constraint, funder)) == 0)
    && v.minWindow <= window <= v.maxWindow
    && 0 < amount <= MAX_U128
  }

  /** Record what was credited, at the rate the policy quotes now. */
  function Fund(v: Vault, c: Ctx, funder: Address, ver: Address, t: Address, credited: nat, constraint: Word,
                window: nat): Vault
  {
    v.(k := Record(v.k, Deposit(funder, c.now, false, t, window, ver, Quote(c, ver, t), credited, constraint)))
  }

  /** The quote a view gives before sweeping: the whole default bucket plus eligible untracked funds. */
  function Quoted(v: Vault, c: Ctx, ver: Address, t: Address): Option<int> {
    match Loose(v, c, ver, t)
    case None => None
    case Some(u) => Some(Get(v.k.bucketTotal, Bucket(ver, 0, t)) + u)
  }

  // ------------------------------------------------------------------ what payouts obey

  /**
   A default-bucket payout goes to the wallet of the best proof accepted by then; untracked funds only
   through the default of the moment and only if that proof is as new as the cross-default floor; a
   constrained payout goes to a wallet proven under its verifier; no payout charges over one percent.
   */
  ghost predicate PaidRight(p: Payout, h: seq<Acceptance>) {
    && p.seen <= |h|
    && p.fee * 100 <= p.gross && p.untracked <= p.gross
    && (p.constraint == 0 ==> exists i: nat :: PaidBest(p, h, i))
    && (p.constraint != 0 ==> PaidProven(p, h))
  }

  ghost predicate PaidBest(p: Payout, h: seq<Acceptance>, i: nat) {
    && p.seen <= |h|
    && IsBest(h[..p.seen], p.verifier, i)
    && h[i].wallet == p.to
    && (p.untracked > 0 ==>
          && p.byDefault
          && forall j :: 0 <= j < p.seen && h[j].asDefault ==> h[j].iat <= h[i].iat)
  }

  ghost predicate PaidProven(p: Payout, h: seq<Acceptance>) {
    && p.untracked == 0 && 0 < p.seen <= |h|
    && h[p.seen - 1].verifier == p.verifier
    && h[p.seen - 1].wallet == p.to
    && h[p.seen - 1].origin.evidence == p.constraint
  }

  ghost predicate PaidInv(v: Vault) {
    forall i :: 0 <= i < |v.paid| ==> PaidRight(v.paid[i], v.ca.hist)
  }

  /** What a payout contributes to the sums below. */
  datatype Part = Gross | Fees | Surplus | SurplusFees

  function PartOf(p: Payout, t: Address, part: Part): nat {
    if p.token != t then 0
    else
      match part
      case Gross => p.gross
      case Fees => p.fee
      case Surplus => p.untracked
      case SurplusFees => p.untracked * p.rate / BPS
  }

  function PaidSum(paid: seq<Payout>, t: Address, part: Part): nat {
    if paid == [] then 0 else PaidSum(paid[..|paid| - 1], t, part) + PartOf(paid[|paid| - 1], t, part)
  }

  /** Sweeps pay out exactly the claimed deposits plus untracked funds, and fees are what they charged. */
  ghost predicate PaidAddsUp(v: Vault) {
    && (forall t :: PaidSum(v.paid, t, Gross) == Flow(v.k.log, t, Claims) + PaidSum(v.paid, t, Surplus))
    && (forall t :: PaidSum(v.paid, t, Fees) == Flow(v.k.log, t, FeesIn))
  }

  /** Every accepted proof was for the identity this vault belongs to. */
  ghost predicate OwnIdentity(v: Vault) {
    forall i :: 0 <= i < |v.ca.hist| ==> v.ca.hist[i].origin.identity == v.salt
  }

  ghost predicate VaultInv(v: Vault, c: Ctx, proxyUsed: set<nat>) {
    && BooksInv(v.k)
    && CacheInv(v.ca, c)
    && Authorised(v.ca.hist, v.nonces, proxyUsed)
    && PaidInv(v)
    && PaidAddsUp(v)
    && OwnIdentity(v)
  }
}
