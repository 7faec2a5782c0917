/**
 The whole system as a state machine: one identity vault behind its proxy, the factory, the verifiers
 with their key sets, the policy's answers, the token balances and the clock. An entry point that sends
 money or pulls tokens hands control to outside code, which may run any sequence of actions (including
 further calls into the vault) before the entry point finishes. A reverted action changes nothing.
 */
module System {
  import opened Types
  import opened KeySet
  import opened Factory
  import opened Books
  import opened OwnerCache
  import opened Vault
  import opened VaultProofs

  /** The proxy: the identity its address is derived from, installed implementation, last upgrade, spent nonces. */
  datatype Proxy = Proxy(identity: Word, impl: Address, wallet: Address, iat: nat, used: set<nat>)

  /** What a transfer is for: a payout, a refund or a distribution of fees, by its place among them or in the log. */
  datatype Cause = Paying(payout: nat) | Refunding(event: nat) | Distributing(event: nat)

  /** Money the vault itself sent, when it did. */
  datatype Transfer = Transfer(token: Address, to: Address, amount: nat, at: nat, cause: Cause)

  datatype World = World(v: Vault, px: Proxy, c: Ctx, sent: seq<Transfer>)

  /** What happens outside the vault. */
  datatype Outside =
    | Tick(seconds: nat)
    | Donate(token: Address, amount: nat)
    | Answer(verifier: Address, answer: Verifier)
    | DeployIdentity(identity: Address, keys: set<Key>, admin: Address)
    | DeployPvium(verifier: Address, identity: Address, vk: Word)
    | SetSupports(verifier: Address, supports: bool)
    | KeyCall(identity: Address, key: KeyOp)
    | PolicyAnswers(allowed: set<Address>, quotes: map<(Address, Address), int>)
    | Govern(gov: FactoryOp)
    | CodeAnswers(guarded: set<Address>)

  /** Calls into the vault. Amounts the environment decides (received, pulled) are part of the call. */
  datatype Entry =
    | FundCall(funder: Address, value: nat, verifier: Address, token: Address, amount: nat, constraint: Word,
               window: nat, received: nat)
    | RefundCall(caller: Address, id: nat)
    | RefreshCall(verifier: Address, proof: Proof, att: AlphaAttestation)
    | RefreshAndSweepCall(verifier: Address, proof: Proof, token: Address, limit: nat, att: AlphaAttestation)
    | SweepCall(verifier: Address, token: Address, limit: nat)
    | SweepUntrackedCall(token: Address)
    | SweepDepositsCall(verifier: Address, token: Address, ids: seq<nat>)
    | SweepBucketCall(verifier: Address, constraint: Word, token: Address, proof: Proof, limit: nat,
                      att: AlphaAttestation)
    | SweepBucketDepositsCall(verifier: Address, constraint: Word, token: Address, proof: Proof, ids: seq<nat>,
                              att: AlphaAttestation)
    | WithdrawFeesCall(verifier: Address, token: Address, pulled: nat)

  /** `cb` is what outside code does while it holds control; `accepted` whether its call succeeds. */
  datatype Action =
    | Env(o: Outside)
    | Upgrade(caller: Address, identity: Word, impl: Address, proof: Proof, att: AlphaAttestation)
    | Enter(e: Entry, cb: seq<Action>, accepted: bool)

  datatype Result = Result(w: World, ok: bool)

  // ------------------------------------------------------------------ outside steps

  function WithBalance(c: Ctx, t: Address, amount: int): Ctx {
    c.(bal := c.bal[t := amount])
  }

  function OutsideStep(s: World, o: Outside): Ctx {
    var c := s.c;
    match o
    case Tick(d) => if s.v.locked then c else c.(now := c.now + d)
    case Donate(t, amount) =>
      if KnownToken(c, t) && Get(c.bal, t) + amount <= MAX_U256 then WithBalance(c, t, Get(c.bal, t) + amount) else c
    case Answer(v, answer) =>
      if answer.Foreign? && (v !in c.verifiers || c.verifiers[v].Foreign?)
        then c.(verifiers := c.verifiers[v := answer]) else c
    case DeployIdentity(i, keys, admin) =>
      if i !in c.identities && keys != {} then WithKeys(c, i, KeyState(keys, |keys|, 0, map[], admin)) else c
    case DeployPvium(v, i, vk) =>
      if v !in c.verifiers && i in c.identities && vk != 0 then c.(verifiers := c.verifiers[v := Pvium(i, vk, false)])
        else c
    case SetSupports(v, supports) =>
      if v in c.verifiers && c.verifiers[v].Pvium?
      then c.(verifiers := c.verifiers[v := Pvium(c.verifiers[v].identity, c.verifiers[v].vk, supports)])
      else c
    case KeyCall(i, op) =>
      if i in c.identities then WithKeys(c, i, KeyAfter(c.identities[i], op, c.now)) else c
    case PolicyAnswers(allowed, quotes) => c.(allowed := allowed, quotes := quotes)
    case Govern(op) => c.(f := FactoryAfter(c.f, op, c.now))
    case CodeAnswers(guarded) => c.(guarded := guarded)
  }

  // ------------------------------------------------------------------ entry points

  /** What the first half of an entry point leads to: failure, completion, or handing over control in `h`. */
  datatype Stage = Fail | Done(w: World) | Call(h: World)

  /** A payment with a payout record is for that payout, any other for the refund just logged. */
  function CauseOf(v: Vault, o: Out): Cause
    requires o.Out?
  {
    if |o.v.paid| > |v.paid| then Paying(|v.paid|) else Refunding(|v.k.log|)
  }

  /** Send the payment an operation made; a zero payment makes no call. */
  function Send(s: World, o: Out): Stage {
    if o.Revert? then Fail
    else if o.net == 0 then Done(s.(v := o.v))
    else if Get(s.c.bal, o.token) < o.net then Fail
    else
      Call(s.(v := o.v.(locked := true), c := WithBalance(s.c, o.token, Get(s.c.bal, o.token) - o.net),
              sent := s.sent + [Transfer(o.token, o.to, o.net, s.c.now, CauseOf(s.v, o))]))
  }

  /** What leaves the vault while fees are distributed: exactly the amount owed, or what the policy pulls. */
  function Outflow(s: World, e: Entry): nat {
    if !e.WithdrawFeesCall? then 0
    else if e.token == NATIVE then (if Get(s.v.k.feesOwed, (e.verifier, e.token)) < 0 then 0
                                    else Get(s.v.k.feesOwed, (e.verifier, e.token)))
    else e.pulled
  }

  /** Native fees go along with the call of the policy in force; tokens it pulls itself. */
  function Outgoing(s: World, e: Entry): seq<Transfer>
    requires e.WithdrawFeesCall?
  {
    if e.token != NATIVE then []
    else [Transfer(NATIVE, s.c.f.policy, Outflow(s, e), s.c.now, Distributing(|s.v.k.log|))]
  }

  function Front(s: World, e: Entry): Stage {
    match e
    case FundCall(funder, value, ver, t, amount, constraint, window, received) =>
      if !MayFund(s.v, s.c, funder, ver, amount, constraint, window) then Fail
      else if t == NATIVE then
        if value != amount || Get(s.c.bal, t) + amount > MAX_U256 then Fail
        else
          var c := WithBalance(s.c, t, Get(s.c.bal, t) + amount);
          Done(s.(v := Fund(s.v, c, funder, ver, t, amount, constraint, window), c := c))
      else if value != 0 || t !in s.c.bal || Get(s.c.bal, t) + received > MAX_U256 then Fail
      else Call(s.(v := s.v.(locked := true), c := WithBalance(s.c, t, Get(s.c.bal, t) + received)))
    case RefundCall(caller, id) => Send(s, RefundDeposit(s.v, s.c, caller, id))
    case RefreshCall(ver, p, att) =>
      (match Prove(s.v, s.c, ver, 0, p, att) case None => Fail case Some(v) => Done(s.(v := v)))
    case RefreshAndSweepCall(ver, p, t, limit, att) => Send(s, RefreshAndSweep(s.v, s.c, ver, p, t, limit, att))
    case SweepCall(ver, t, limit) => Send(s, SweepDefault(s.v, s.c, ver, t, limit))
    case SweepUntrackedCall(t) => Send(s, SweepUntracked(s.v, s.c, t))
    case SweepDepositsCall(ver, t, ids) => Send(s, SweepDeposits(s.v, s.c, ver, t, ids))
    case SweepBucketCall(ver, constraint, t, p, limit, att) =>
      Send(s, SweepBucket(s.v, s.c, ver, constraint, t, p, limit, att))
    case SweepBucketDepositsCall(ver, constraint, t, p, ids, att) =>
      Send(s, SweepBucketDeposits(s.v, s.c, ver, constraint, t, p, ids, att))
    case WithdrawFeesCall(ver, t, pulled) =>
      var owed := Get(s.v.k.feesOwed, (ver, t));
      if owed <= 0 then Done(s)
      else if !KnownToken(s.c, t) || Get(s.c.bal, t) < Outflow(s, e) then Fail
      else
        Call(s.(v := s.v.(locked := true), c := WithBalance(s.c, t, Get(s.c.bal, t) - Outflow(s, e)),
                sent := s.sent + Outgoing(s, e)))
  }

  /** The second half, in the state `h` outside code left; None reverts the whole call. */
  function Back(s: World, e: Entry, h: World): Option<World> {
    match e
    case FundCall(funder, value, ver, t, amount, constraint, window, received) =>
      var credited := Get(h.c.bal, t) - Get(s.c.bal, t);
      if credited <= 0 || credited > MAX_U128 then None
      else Some(h.(v := Fund(h.v, h.c, funder, ver, t, credited, constraint, window).(locked := false)))
    case WithdrawFeesCall(ver, t, pulled) =>
      var owed := Get(s.v.k.feesOwed, (ver, t));
      var spent := Get(s.c.bal, t) - Get(h.c.bal, t);
      var amount := if t == NATIVE then owed else if spent > 0 then spent else 0;
      if amount < 0 || amount > owed then None
      else Some(h.(v := h.v.(k := Distribute(h.v.k, ver, t, amount), locked := false)))
    case _ => Some(h.(v := h.v.(locked := false)))
  }

  // ------------------------------------------------------------------ proxy upgrades

  /** The floors of the current implementation, discarding values too far in the future. */
  function VaultFloor(ca: Cache, c: Ctx, ver: Address): int {
    var a := if Get(ca.latest, ver) > c.now + FUTURE_SLACK then 0 else Get(ca.latest, ver);
    var b := if ca.untracked > c.now + FUTURE_SLACK then 0 else ca.untracked;
    Max(a, b)
  }

  /** acceptOwnerProof called by the proxy: guarded, and refused unless the wallet ends up the owner. */
  function AcceptOwnerProof(v: Vault, c: Ctx, ver: Address, origin: Origin, wallet: Address, iat: nat,
                            auth: Auth): Option<Vault>
  {
    if v.locked || !Claimable(c, ver) then None
    else
      match Apply(v.ca, c, ver, origin, wallet, iat, auth)
      case None => None
      case Some(ca) => if Get(ca.owner, ver) != wallet then None else Some(v.(ca := ca))
  }

  /** The alpha check of an upgrade; None reverts. */
  function AuthoriseUpgrade(s: World, att: AlphaAttestation): Option<(set<nat>, Auth)> {
    match VkHash(s.c, s.c.f.defaultVerifier)
    case None => None
    case Some(key) =>
      if !IsAlpha(s.c.f, key) then Some((s.px.used, Unattested))
      else if !att.present || att.nonce in s.px.used || !VerifyAlpha(s.c.f, s.c.now, att) then None
      else Some((s.px.used + {att.nonce}, ProxyNonce(att.nonce)))
  }

  /** The proof is as new as the last upgrade (the same wallet if equally old) and as every vault floor. */
  predicate UpgradeProofNew(s: World, p: Proof) {
    var stale := s.px.iat > s.c.now + FUTURE_SLACK;
    var lastWallet, lastIat := if stale then 0 else s.px.wallet, if stale then 0 else s.px.iat;
    && p.iat <= s.c.now + FUTURE_SLACK
    && p.iat >= lastIat && (p.iat == lastIat ==> p.wallet == lastWallet)
    && p.iat >= VaultFloor(s.v.ca, s.c, s.c.f.defaultVerifier)
  }

  /** upgradeTo: the proxy's address must be the one derived from the given identity. */
  function UpgradeTo(s: World, caller: Address, identity: Word, impl: Address, p: Proof, att: AlphaAttestation): Result
  {
    var ver := s.c.f.defaultVerifier;
    if identity != s.px.identity || impl !in s.c.f.registered || impl !in s.c.guarded || impl == s.px.impl
    then Result(s, false)
    else
      match AuthoriseUpgrade(s, att)
      case None => Result(s, false)
      case Some((used, auth)) =>
        if !Verifies(s.c, ver, identity, 0, p) || p.wallet != caller || !UpgradeProofNew(s, p) then Result(s, false)
        else
          match AcceptOwnerProof(s.v, s.c, ver, p.origin, p.wallet, p.iat, auth)
          case None => Result(s, false)
          case Some(v) =>
            if Get(v.ca.owner, ver) != p.wallet || Get(v.ca.latest, ver) < p.iat then Result(s, false)
            else Result(s.(v := v, px := Proxy(s.px.identity, impl, p.wallet, p.iat, used)), true)
  }

  // ------------------------------------------------------------------ runs

  function Exec(s: World, a: Action): Result
    decreases a
  {
    match a
    case Env(o) => Result(s.(c := OutsideStep(s, o)), true)
    case Upgrade(caller, identity, impl, p, att) => UpgradeTo(s, caller, identity, impl, p, att)
    case Enter(e, cb, accepted) =>
      if s.v.locked then Result(s, false)
      else
        match Front(s, e)
        case Fail => Result(s, false)
        case Done(w) => Result(w, true)
        case Call(h) =>
          if !accepted then Result(s, false)
          else
            match Back(s, e, ExecAll(h, cb))
            case None => Result(s, false)
            case Some(w) => Result(w, true)
  }

  function ExecAll(s: World, run: seq<Action>): World
    decreases run
  {
    if run == [] then s else ExecAll(Exec(s, run[0]).w, run[1..])
  }

  // ------------------------------------------------------------------ the invariant

  ghost predicate CtxOk(c: Ctx) {
    && (forall v :: v in c.verifiers && c.verifiers[v].Pvium? ==> IsPvium(c, v) && c.verifiers[v].vk != 0)
    && (forall i :: i in c.identities ==> KeyInv(c.identities[i]))
    && FactoryInv(c.f)
    && (forall t :: 0 <= Get(c.bal, t) <= MAX_U256)
  }

  /** The vault owns at least what its deposits and accrued fees add up to, in every token. */
  ghost predicate Solvent(s: World) {
    forall t :: Get(s.c.bal, t) >= Held(s.v.k, t)
  }

  ghost predicate Inv(s: World) {
    && VaultInv(s.v, s.c, s.px.used)
    && s.px.iat <= s.v.ca.untracked
    && s.px.identity == s.v.salt
    && CtxOk(s.c)
    && Solvent(s)
    && !s.v.locked
  }

  /**
   A freshly deployed vault; money may already be there, and everything outside is arbitrary. The factory
   derives the address from the identity hash that it initializes the vault with.
   */
  ghost predicate Initial(s: World) {
    && s.v == Vault(NO_BOOKS, NO_CACHE, {}, [], false, s.px.identity, s.v.minWindow, s.v.maxWindow)
    && s.px.wallet == 0 && s.px.iat == 0 && s.px.used == {} && s.sent == []
    && CtxOk(s.c)
  }

  lemma InitialInv(s: World)
    requires Initial(s)
    ensures Inv(s)
  {
    EmptyInv();
  }
}
