/**
 PviumP2IdVaultFactory: alpha status by verification key, the implementation registry, and the three
 timelocks (policy, default verifier, starting implementation). Answers of other contracts (whether a
 policy allows a verifier, whether an address has code or names this factory) are call parameters.
 */
module Factory {
  import opened Types

  /** A timelocked proposal; `eta` 0 means nothing is proposed. */
  datatype Lock = Lock(item: Address, eta: nat)

  const NO_PROPOSAL := Lock(0, 0)

  datatype FactoryState = FactoryState(
    owner: Address, attester: Address, epoch: nat,
    released: set<Word>, alphaRev: map<Word, int>,
    policy: Address, policyLock: Lock, policyDelay: nat,
    defaultVerifier: Address, defaultLock: Lock,
    base: Address, initial: Address, registered: set<Address>,
    implLock: Lock, implMakeDefault: bool)

  datatype FactoryOp =
    | SetAlphaCall(caller: Address, vk: Word, enabled: bool)
    | SetAttesterCall(caller: Address, who: Address)
    | ProposePolicyCall(caller: Address, policy: Address, hasCode: bool)
    | CancelPolicyCall(caller: Address)
    | ActivatePolicyCall(caller: Address, allows: bool)
    | ProposeDefaultCall(caller: Address, verifier: Address, allows: bool)
    | CancelDefaultCall(caller: Address)
    | ActivateDefaultCall(caller: Address, allows: bool)
    | DeployImplementationCall(caller: Address, impl: Address, deployable: bool, bound: bool, makeDefault: bool)
    | ProposeImplementationCall(caller: Address, impl: Address, hasCode: bool, bound: bool)
    | ProposeDefaultImplementationCall(caller: Address, impl: Address, bound: bool)
    | CancelImplementationCall(caller: Address)
    | RegisterImplementationCall(caller: Address, hasCode: bool, bound: bool)
    | RevokeImplementationCall(caller: Address, impl: Address)

  /** A key is in alpha until it is released. */
  predicate IsAlpha(f: FactoryState, vk: Word) {
    vk !in f.released
  }

  function AlphaRevision(f: FactoryState, vk: Word): int {
    Get(f.alphaRev, vk)
  }

  /** The state left by the constructor. */
  function FactoryInit(owner: Address, attester: Address, policy: Address, policyDelay: nat,
                       verifier: Address, initialVk: Word, base: Address): FactoryState
  {
    FactoryState(owner, if attester == 0 then owner else attester, 0, {}, map[initialVk := 1],
                 policy, NO_PROPOSAL, policyDelay, verifier, NO_PROPOSAL,
                 base, base, {base}, NO_PROPOSAL, false)
  }

  function ProposeImpl(f: FactoryState, impl: Address, makeDefault: bool, now: nat): FactoryState {
    f.(implLock := Lock(impl, now + DAYS_14), implMakeDefault := makeDefault)
  }

  /** One call at time `now`; None is a revert. Every entry point here is owner-only. */
  function FactoryStep(f: FactoryState, op: FactoryOp, now: nat): Option<FactoryState> {
    if op.caller != f.owner then None
    else
      match op
      case SetAlphaCall(_, vk, enabled) =>
        if vk == 0 then None
        else
          var rev := if enabled && vk in f.released
                     then f.alphaRev[vk := AlphaRevision(f, vk) + 1] else f.alphaRev;
          Some(f.(alphaRev := rev, released := if enabled then f.released - {vk} else f.released + {vk},
                  epoch := f.epoch + 1))
      case SetAttesterCall(_, who) =>
        if who == 0 then None else Some(f.(attester := who, epoch := f.epoch + 1))
      case ProposePolicyCall(_, policy, hasCode) =>
        if hasCode then Some(f.(policyLock := Lock(policy, now + f.policyDelay))) else None
      case CancelPolicyCall(_) =>
        if f.policyLock.eta == 0 then None else Some(f.(policyLock := NO_PROPOSAL))
      case ActivatePolicyCall(_, allows) =>
        if f.policyLock.eta == 0 || now < f.policyLock.eta || !allows then None
        else Some(f.(policy := f.policyLock.item, policyLock := NO_PROPOSAL))
      case ProposeDefaultCall(_, verifier, allows) =>
        if allows then Some(f.(defaultLock := Lock(verifier, now + DAYS_14))) else None
      case CancelDefaultCall(_) =>
        if f.defaultLock.eta == 0 then None else Some(f.(defaultLock := NO_PROPOSAL))
      case ActivateDefaultCall(_, allows) =>
        if f.defaultLock.eta == 0 || now < f.defaultLock.eta || !allows then None
        else Some(f.(defaultVerifier := f.defaultLock.item, defaultLock := NO_PROPOSAL))
      case DeployImplementationCall(_, impl, deployable, bound, makeDefault) =>
        if !deployable || !bound then None
        else if f.implLock.eta != 0 then
          if f.implLock.item == impl && f.implMakeDefault == makeDefault then Some(f) else None
        else if impl in f.registered && (!makeDefault || f.base == impl) then Some(f)
        else Some(ProposeImpl(f, impl, makeDefault, now))
      case ProposeImplementationCall(_, impl, hasCode, bound) =>
        if !hasCode || impl in f.registered || !bound then None else Some(ProposeImpl(f, impl, false, now))
      case ProposeDefaultImplementationCall(_, impl, bound) =>
        if impl !in f.registered || impl == f.base || !bound then None else Some(ProposeImpl(f, impl, true, now))
      case CancelImplementationCall(_) =>
        if f.implLock.eta == 0 then None else Some(f.(implLock := NO_PROPOSAL, implMakeDefault := false))
      case RegisterImplementationCall(_, hasCode, bound) =>
        if f.implLock.eta == 0 || now < f.implLock.eta || !hasCode || !bound then None
        else
          var impl := f.implLock.item;
          Some(f.(implLock := NO_PROPOSAL, implMakeDefault := false, registered := f.registered + {impl},
                  base := if f.implMakeDefault then impl else f.base))
      case RevokeImplementationCall(_, impl) =>
        if impl == f.base || impl == f.initial || impl !in f.registered then None
        else Some(f.(registered := f.registered - {impl}))
  }

  function FactoryAfter(f: FactoryState, op: FactoryOp, now: nat): FactoryState {
    match FactoryStep(f, op, now)
    case Some(f') => f'
    case None => f
  }

  /** An alpha revision never goes back; while it stands still a released key stays released. */
  lemma AlphaRevisionGuardsRelease(f: FactoryState, op: FactoryOp, now: nat, vk: Word)
    ensures var f' := FactoryAfter(f, op, now);
            && AlphaRevision(f', vk) >= AlphaRevision(f, vk)
            && (AlphaRevision(f', vk) == AlphaRevision(f, vk) && vk in f.released ==> vk in f'.released)
  {
  }

  /** The starting and the original implementation can never be revoked. */
  ghost predicate FactoryInv(f: FactoryState) {
    f.base in f.registered && f.initial in f.registered
  }

  // ------------------------------------------------------------------ who decides

  /** Only the owner's calls have an effect, and none of them changes who the owner is. */
  lemma OnlyTheOwner(f: FactoryState, op: FactoryOp, now: nat)
    ensures FactoryAfter(f, op, now) != f ==> op.caller == f.owner
    ensures FactoryAfter(f, op, now).owner == f.owner && FactoryAfter(f, op, now).initial == f.initial
    ensures FactoryAfter(f, op, now).policyDelay == f.policyDelay
  {
  }

  /** What setting a key's alpha status does: exactly that, and every earlier attestation is void. */
  lemma AlphaSet(f: FactoryState, caller: Address, vk: Word, enabled: bool, now: nat, other: Word)
    ensures var f' := FactoryAfter(f, SetAlphaCall(caller, vk, enabled), now);
            if caller != f.owner || vk == 0 then f' == f
            else
              && IsAlpha(f', vk) == enabled
              && (other != vk ==>
                    IsAlpha(f', other) == IsAlpha(f, other) && AlphaRevision(f', other) == AlphaRevision(f, other))
              && AlphaRevision(f', vk) == AlphaRevision(f, vk) + (if enabled && !IsAlpha(f, vk) then 1 else 0)
              && f' == f.(released := f'.released, alphaRev := f'.alphaRev, epoch := f.epoch + 1)
  {
  }

  /** The three timelocked settings, and the registry's own timelock. */
  datatype Slot = PolicySlot | DefaultSlot | BaseSlot | RegistrySlot

  function InForce(f: FactoryState, slot: Slot): Address {
    match slot
    case PolicySlot => f.policy
    case DefaultSlot => f.defaultVerifier
    case _ => f.base
  }

  function Delay(f: FactoryState, slot: Slot): nat {
    if slot == PolicySlot then f.policyDelay else DAYS_14
  }

  /** The standing proposal to change a setting; an implementation proposal may be for the registry alone. */
  function Pending(f: FactoryState, slot: Slot): Lock {
    match slot
    case PolicySlot => f.policyLock
    case DefaultSlot => f.defaultLock
    case BaseSlot => if f.implMakeDefault then f.implLock else NO_PROPOSAL
    case RegistrySlot => f.implLock
  }

  /** A call of the owner that proposes this item: approved by the policy, or code bound to this factory. */
  predicate Proposes(op: FactoryOp, slot: Slot, owner: Address, item: Address) {
    match slot
    case PolicySlot => op == ProposePolicyCall(owner, item, true)
    case DefaultSlot => op == ProposeDefaultCall(owner, item, true)
    case BaseSlot =>
      op == DeployImplementationCall(owner, item, true, true, true)
      || op == ProposeDefaultImplementationCall(owner, item, true)
    case RegistrySlot =>
      (exists makeDefault :: op == DeployImplementationCall(owner, item, true, true, makeDefault))
      || op == ProposeImplementationCall(owner, item, true, true)
      || op == ProposeDefaultImplementationCall(owner, item, true)
  }

  /** A call of the owner that puts the proposal into force, its conditions checked again. */
  predicate Activates(op: FactoryOp, slot: Slot, owner: Address) {
    match slot
    case PolicySlot => op == ActivatePolicyCall(owner, true)
    case DefaultSlot => op == ActivateDefaultCall(owner, true)
    case _ => op == RegisterImplementationCall(owner, true, true)
  }

  predicate Cancels(op: FactoryOp, slot: Slot, owner: Address) {
    match slot
    case PolicySlot => op == CancelPolicyCall(owner)
    case DefaultSlot => op == CancelDefaultCall(owner)
    case _ => op == CancelImplementationCall(owner)
  }

  /** A recorded run: state i + 1 is state i after operation i at time i. */
  ghost predicate IsTrace(tr: seq<FactoryState>, times: seq<nat>, ops: seq<FactoryOp>) {
    && |tr| == |ops| + 1
    && |times| == |ops|
    && (forall i, j :: 0 <= i < j < |times| ==> times[i] <= times[j])
    && (forall i {:trigger ops[i]} :: 0 <= i < |ops| ==> tr[i + 1] == FactoryAfter(tr[i], ops[i], times[i]))
  }

  ghost predicate Fresh(f: FactoryState) {
    f.policyLock == NO_PROPOSAL && f.defaultLock == NO_PROPOSAL && f.implLock == NO_PROPOSAL && FactoryInv(f)
  }

  /** Registration survives every run, and so does the owner. */
  lemma {:induction false} RegistryKeepsBase(tr: seq<FactoryState>, times: seq<nat>, ops: seq<FactoryOp>, n: nat)
    requires IsTrace(tr, times, ops) && FactoryInv(tr[0]) && n < |tr|
    ensures FactoryInv(tr[n]) && tr[n].initial == tr[0].initial && tr[n].owner == tr[0].owner
  {
    if n > 0 {
      RegistryKeepsBase(tr, times, ops, n - 1);
      assert tr[n] == FactoryAfter(tr[n - 1], ops[n - 1], times[n - 1]);
    }
  }

  /** What one step can do to a setting and to its proposal. */
  lemma SlotStep(f: FactoryState, op: FactoryOp, now: nat, slot: Slot)
    ensures var f' := FactoryAfter(f, op, now);
            && Delay(f', slot) == Delay(f, slot)
            && (Pending(f', slot) == Pending(f, slot) || Pending(f', slot).eta == 0
                || (Proposes(op, slot, f.owner, Pending(f', slot).item)
                    && Pending(f', slot).eta == now + Delay(f, slot)))
            && (Cancels(op, slot, f.owner) ==> Pending(f', slot).eta == 0)
            && (InForce(f', slot) == InForce(f, slot)
                || (slot != RegistrySlot ==>
                      && Activates(op, slot, f.owner)
                      && Pending(f, slot).eta != 0 && Pending(f, slot).item == InForce(f', slot)
                      && now >= Pending(f, slot).eta))
  {
  }

  /** The proposal standing in state n was made in step i and stood, unchanged and not cancelled, ever since. */
  ghost predicate StoodSince(tr: seq<FactoryState>, times: seq<nat>, ops: seq<FactoryOp>, slot: Slot, i: int, n: int)
    requires |tr| == |times| + 1 == |ops| + 1
  {
    && 0 <= i < n < |tr|
    && Proposes(ops[i], slot, tr[0].owner, Pending(tr[n], slot).item)
    && Pending(tr[n], slot).eta == times[i] + Delay(tr[0], slot)
    && (forall j :: i < j <= n ==> Pending(tr[j], slot) == Pending(tr[n], slot))
    && (forall j :: i < j < n ==> !Cancels(ops[j], slot, tr[0].owner))
  }

  lemma {:induction false} ProposalStood(tr: seq<FactoryState>, times: seq<nat>, ops: seq<FactoryOp>, slot: Slot,
                                         n: nat)
    requires IsTrace(tr, times, ops) && Fresh(tr[0]) && n < |tr|
    ensures Delay(tr[n], slot) == Delay(tr[0], slot)
    ensures Pending(tr[n], slot).eta != 0 ==> exists i :: StoodSince(tr, times, ops, slot, i, n)
  {
    hide Proposes, Cancels, Activates;
    if n > 0 {
      hide FactoryAfter;
      ProposalStood(tr, times, ops, slot, n - 1);
      RegistryKeepsBase(tr, times, ops, n - 1);
      var now := times[n - 1];
      assert tr[n] == FactoryAfter(tr[n - 1], ops[n - 1], now);
      SlotStep(tr[n - 1], ops[n - 1], now, slot);
      if Pending(tr[n], slot).eta != 0 {
        if Pending(tr[n], slot) == Pending(tr[n - 1], slot) {
          var i :| StoodSince(tr, times, ops, slot, i, n - 1);
          assert StoodSince(tr, times, ops, slot, i, n);
        } else {
          assert StoodSince(tr, times, ops, slot, n - 1, n);
        }
      }
    }
  }

  /**
   The setting in force in state n was installed by the owner's step m, whose proposal had stood since step i
   for at least the full delay, and nothing has replaced it since.
   */
  ghost predicate Noticed(tr: seq<FactoryState>, times: seq<nat>, ops: seq<FactoryOp>, slot: Slot, i: int, m: int,
                          n: int)
    requires |tr| == |times| + 1 == |ops| + 1
  {
    && StoodSince(tr, times, ops, slot, i, m)
    && m < n < |tr|
    && Activates(ops[m], slot, tr[0].owner)
    && Pending(tr[m], slot).item == InForce(tr[n], slot)
    && times[m] >= times[i] + Delay(tr[0], slot)
    && forall j :: m < j <= n ==> InForce(tr[j], slot) == InForce(tr[n], slot)
  }

  lemma NoticedStill(tr: seq<FactoryState>, times: seq<nat>, ops: seq<FactoryOp>, slot: Slot, i: int, m: int, n: int)
    requires |tr| == |times| + 1 == |ops| + 1 && n + 1 < |tr|
    requires Noticed(tr, times, ops, slot, i, m, n) && InForce(tr[n + 1], slot) == InForce(tr[n], slot)
    ensures Noticed(tr, times, ops, slot, i, m, n + 1)
  {
    hide StoodSince, Activates, InForce;
  }

  /** Timelock history: nothing but the constructor's choice takes effect without its full notice. */
  lemma {:induction false} TimelockHistory(tr: seq<FactoryState>, times: seq<nat>, ops: seq<FactoryOp>, slot: Slot,
                                           n: nat)
    requires IsTrace(tr, times, ops) && Fresh(tr[0]) && n < |tr| && slot != RegistrySlot
    ensures (forall j :: 0 <= j <= n ==> InForce(tr[j], slot) == InForce(tr[0], slot))
            || exists i, m :: Noticed(tr, times, ops, slot, i, m, n)
  {
    hide Proposes, Cancels, Activates;
    if n > 0 {
      hide FactoryAfter, InForce, Pending;
      var p := n - 1;
      TimelockHistory(tr, times, ops, slot, p);
      RegistryKeepsBase(tr, times, ops, p);
      assert tr[n] == FactoryAfter(tr[p], ops[p], times[p]);
      SlotStep(tr[p], ops[p], times[p], slot);
      if InForce(tr[n], slot) != InForce(tr[p], slot) {
        ProposalStood(tr, times, ops, slot, p);
        var i :| StoodSince(tr, times, ops, slot, i, p);
        assert Noticed(tr, times, ops, slot, i, p, n);
      } else if exists i, m :: Noticed(tr, times, ops, slot, i, m, p) {
        var i, m :| Noticed(tr, times, ops, slot, i, m, p);
        NoticedStill(tr, times, ops, slot, i, m, p);
      }
    }
  }

  /** What is proposed properly and waits its time can be put into force, and then is. */
  lemma ProposalsWork(f: FactoryState, slot: Slot, propose: FactoryOp, activate: FactoryOp, item: Address, now: nat,
                      later: nat)
    requires Proposes(propose, slot, f.owner, item) && Activates(activate, slot, f.owner)
    requires now > 0 && later >= now + Delay(f, slot)
    requires slot == BaseSlot || slot == RegistrySlot ==> Proposable(f, slot, propose, item)
    ensures var f' := FactoryAfter(FactoryAfter(f, propose, now), activate, later);
            if slot == RegistrySlot then item in f'.registered else InForce(f', slot) == item
  {
  }

  /** No other implementation is proposed, and this one is not yet what it would become. */
  predicate Proposable(f: FactoryState, slot: Slot, op: FactoryOp, item: Address) {
    && (op.DeployImplementationCall? ==> f.implLock.eta == 0)
    && (op.ProposeImplementationCall? ==> item !in f.registered)
    && (op.ProposeDefaultImplementationCall? ==> item in f.registered && item != f.base)
  }

  /** The owner withdrew this implementation, which is neither the starting nor the original one. */
  predicate Revokes(f: FactoryState, op: FactoryOp, impl: Address) {
    op == RevokeImplementationCall(f.owner, impl) && impl != f.base && impl != f.initial
  }

  /** How one step can change what is registered. */
  lemma RegistryStep(f: FactoryState, op: FactoryOp, now: nat, impl: Address)
    requires FactoryInv(f)
    ensures var f' := FactoryAfter(f, op, now);
            && (impl in f'.registered && impl !in f.registered ==>
                  && Activates(op, RegistrySlot, f.owner) && f.implLock.item == impl
                  && 0 < f.implLock.eta <= now)
            && (impl !in f'.registered && impl in f.registered ==> Revokes(f, op, impl))
            && (Revokes(f, op, impl) ==> impl !in f'.registered)
  {
  }

  /** Step m registered the implementation after fourteen days' notice, and it was not revoked since. */
  ghost predicate Registered(tr: seq<FactoryState>, times: seq<nat>, ops: seq<FactoryOp>, impl: Address, i: int, m: int,
                             n: int)
    requires |tr| == |times| + 1 == |ops| + 1
  {
    && StoodSince(tr, times, ops, RegistrySlot, i, m)
    && m < n < |tr|
    && Activates(ops[m], RegistrySlot, tr[0].owner)
    && Pending(tr[m], RegistrySlot).item == impl
    && times[m] >= times[i] + DAYS_14
    && forall j :: m < j < n ==> !Revokes(tr[j], ops[j], impl)
  }

  lemma RegisteredStill(tr: seq<FactoryState>, times: seq<nat>, ops: seq<FactoryOp>, impl: Address, i: int, m: int,
                        n: int)
    requires |tr| == |times| + 1 == |ops| + 1 && n + 1 < |tr|
    requires Registered(tr, times, ops, impl, i, m, n) && !Revokes(tr[n], ops[n], impl)
    ensures Registered(tr, times, ops, impl, i, m, n + 1)
  {
    hide StoodSince, Activates, Revokes, Pending;
  }

  lemma JustRegistered(tr: seq<FactoryState>, times: seq<nat>, ops: seq<FactoryOp>, impl: Address, p: nat)
    returns (i: int)
    requires IsTrace(tr, times, ops) && Fresh(tr[0]) && p + 1 < |tr|
    requires Activates(ops[p], RegistrySlot, tr[0].owner)
    requires Pending(tr[p], RegistrySlot).item == impl && 0 < Pending(tr[p], RegistrySlot).eta <= times[p]
    ensures |tr| == |times| + 1 == |ops| + 1 && Registered(tr, times, ops, impl, i, p, p + 1)
  {
    hide Activates, FactoryAfter, Pending, IsTrace;
    ProposalStood(tr, times, ops, RegistrySlot, p);
    SizesMatch(tr, times, ops);
    i :| StoodSince(tr, times, ops, RegistrySlot, i, p);
    assert Registered(tr, times, ops, impl, i, p, p + 1);
  }

  lemma SizesMatch(tr: seq<FactoryState>, times: seq<nat>, ops: seq<FactoryOp>)
    requires IsTrace(tr, times, ops)
    ensures |tr| == |times| + 1 == |ops| + 1
  {
  }

  /** Whatever is registered was so from the start and never revoked, or was registered after full notice. */
  lemma {:induction false} RegistryHistory(tr: seq<FactoryState>, times: seq<nat>, ops: seq<FactoryOp>, impl: Address,
                                           n: nat)
    requires IsTrace(tr, times, ops) && Fresh(tr[0]) && n < |tr| && impl in tr[n].registered
    ensures (impl in tr[0].registered && forall j :: 0 <= j < n ==> !Revokes(tr[j], ops[j], impl))
            || exists i, m :: Registered(tr, times, ops, impl, i, m, n)
  {
    hide Proposes, Cancels, Activates, Revokes, StoodSince, Registered;
    if n > 0 {
      hide FactoryAfter;
      var p := n - 1;
      RegistryKeepsBase(tr, times, ops, p);
      assert tr[n] == FactoryAfter(tr[p], ops[p], times[p]);
      RegistryStep(tr[p], ops[p], times[p], impl);
      if impl in tr[p].registered {
        RegistryHistory(tr, times, ops, impl, p);
        if exists i, m :: Registered(tr, times, ops, impl, i, m, p) {
          var i, m :| Registered(tr, times, ops, impl, i, m, p);
          RegisteredStill(tr, times, ops, impl, i, m, p);
        }
      } else {
        var i := JustRegistered(tr, times, ops, impl, p);
      }
    }
  }

  // ------------------------------------------------------------------ alpha over a run

  /** Whether the last call of the owner about this key put it into alpha. */
  function LastSetting(ops: seq<FactoryOp>, owner: Address, vk: Word, initial: bool): bool {
    if ops == [] then initial
    else
      var op := ops[|ops| - 1];
      if op.SetAlphaCall? && op.caller == owner && op.vk == vk then op.enabled
      else LastSetting(ops[..|ops| - 1], owner, vk, initial)
  }

  /** The attester the owner named last. */
  function LastAttester(ops: seq<FactoryOp>, owner: Address, initial: Address): Address {
    if ops == [] then initial
    else
      var op := ops[|ops| - 1];
      if op.SetAttesterCall? && op.caller == owner && op.who != 0 then op.who
      else LastAttester(ops[..|ops| - 1], owner, initial)
  }

  /** How many calls of the owner void the attestations made before them. */
  function Voidings(ops: seq<FactoryOp>, owner: Address): nat {
    if ops == [] then 0
    else
      var op := ops[|ops| - 1];
      Voidings(ops[..|ops| - 1], owner)
      + (if op.caller == owner && ((op.SetAlphaCall? && op.vk != 0) || (op.SetAttesterCall? && op.who != 0)) then 1
         else 0)
  }

  /** Over any run: alpha status and attester are as the owner last said, and every such decision moved the epoch. */
  lemma {:induction false} AlphaFollowsOwner(tr: seq<FactoryState>, times: seq<nat>, ops: seq<FactoryOp>, n: nat,
                                             vk: Word)
    requires IsTrace(tr, times, ops) && n < |tr| && vk != 0
    ensures tr[n].owner == tr[0].owner
    ensures IsAlpha(tr[n], vk) <==> LastSetting(ops[..n], tr[0].owner, vk, IsAlpha(tr[0], vk))
    ensures tr[n].epoch == tr[0].epoch + Voidings(ops[..n], tr[0].owner)
    ensures tr[n].attester == LastAttester(ops[..n], tr[0].owner, tr[0].attester)
  {
    if n > 0 {
      AlphaFollowsOwner(tr, times, ops, n - 1, vk);
      assert ops[..n][..n - 1] == ops[..n - 1];
      assert tr[n] == FactoryAfter(tr[n - 1], ops[n - 1], times[n - 1]);
      AlphaStep(tr[n - 1], ops[n - 1], times[n - 1], vk);
    }
  }

  lemma AlphaStep(f: FactoryState, op: FactoryOp, now: nat, vk: Word)
    requires vk != 0
    ensures var f' := FactoryAfter(f, op, now);
            && f'.owner == f.owner
            && IsAlpha(f', vk)
               == (if op.SetAlphaCall? && op.caller == f.owner && op.vk == vk then op.enabled else IsAlpha(f, vk))
            && f'.epoch == f.epoch + Voidings([op], f.owner)
            && f'.attester
               == (if op.SetAttesterCall? && op.caller == f.owner && op.who != 0 then op.who else f.attester)
  {
    assert [op][..0] == [];
  }

  /** The contract: every entry point on storage. */
  class PviumP2IdVaultFactory {
    var owner: Address
    var defaultAttester: Address
    var alphaEpoch: nat
    var alphaReleased: set<Word>
    var alphaRevision: map<Word, int>
    var policy: Address
    var proposedPolicy: Address
    var proposedPolicyEta: nat
    const policyChangeDelay: nat
    const minRefundWindow: nat
    const maxRefundWindow: nat
    var defaultVerifier: Address
    var proposedDefaultVerifier: Address
    var proposedDefaultEta: nat
    var baseImplementation: Address
    const initialImplementation: Address
    var registeredImplementations: set<Address>
    var proposedImplementation: Address
    var proposedImplementationEta: nat
    var proposedImplementationMakeDefault: bool

    ghost function Abs(): FactoryState
      reads this
    {
      FactoryState(owner, defaultAttester, alphaEpoch, alphaReleased, alphaRevision,
                   policy, Lock(proposedPolicy, proposedPolicyEta), policyChangeDelay,
                   defaultVerifier, Lock(proposedDefaultVerifier, proposedDefaultEta),
                   baseImplementation, initialImplementation, registeredImplementations,
                   Lock(proposedImplementation, proposedImplementationEta), proposedImplementationMakeDefault)
    }

    /** The storage of a factory whose arguments passed Deploy's checks. */
    constructor (owner: Address, policy: Address, verifier: Address, policyDelay: nat, minWindow: nat, maxWindow: nat,
                 attester: Address, initialVk: Word, base: Address)
      requires owner != 0 && initialVk != 0 && minWindow <= maxWindow
      ensures Abs() == FactoryInit(owner, attester, policy, policyDelay, verifier, initialVk, base)
      ensures minRefundWindow == minWindow && maxRefundWindow == maxWindow
    {
      this.owner := owner;
      defaultAttester := if attester == 0 then owner else attester;
      policyChangeDelay, this.policy, defaultVerifier := policyDelay, policy, verifier;
      minRefundWindow, maxRefundWindow := minWindow, maxWindow;
      baseImplementation, initialImplementation, registeredImplementations := base, base, {base};
      alphaRevision := map[initialVk := 1];
      alphaEpoch, alphaReleased := 0, {};
      proposedPolicy, proposedPolicyEta, proposedDefaultVerifier, proposedDefaultEta := 0, 0, 0, 0;
      proposedImplementation, proposedImplementationEta, proposedImplementationMakeDefault := 0, 0, false;
    }

    /**
     Deployment: `hasCode` and `allows` are what the policy's address and isVerifierAllowed answer, `vk` is the
     default verifier's key hash, None when it cannot be read. Without a factory the deployment reverted.
     */
    static method Deploy(owner: Address, policy: Address, hasCode: bool, allows: bool, verifier: Address,
                         policyDelay: nat, minWindow: nat, maxWindow: nat, attester: Address, vk: Option<Word>,
                         base: Address)
      returns (f: PviumP2IdVaultFactory?)
      ensures f != null <==> owner != 0 && minWindow <= maxWindow && hasCode && allows && vk.Some? && vk.value != 0
      ensures f != null ==>
                fresh(f) && Fresh(f.Abs()) && f.minRefundWindow == minWindow && f.maxRefundWindow == maxWindow
      ensures f != null ==> f.Abs() == FactoryInit(owner, attester, policy, policyDelay, verifier, vk.value, base)
      ensures f != null ==>
                && f.owner == owner && f.policy == policy && f.defaultVerifier == verifier
                && f.defaultAttester == (if attester == 0 then owner else attester)
                && f.policyChangeDelay == policyDelay && f.alphaReleased == {}
                && f.baseImplementation == f.initialImplementation == base && f.registeredImplementations == {base}
    {
      if owner == 0 || minWindow > maxWindow || !hasCode || !allows || vk.None? || vk.value == 0 {
        return null;
      }
      f := new PviumP2IdVaultFactory(owner, policy, verifier, policyDelay, minWindow, maxWindow, attester, vk.value,
                                     base);
    }

    method SetAlpha(caller: Address, vk: Word, enabled: bool, now: nat) returns (ok: bool)
      modifies this
      ensures ok == FactoryStep(old(Abs()), SetAlphaCall(caller, vk, enabled), now).Some?
      ensures Abs() == FactoryAfter(old(Abs()), SetAlphaCall(caller, vk, enabled), now)
    {
      if caller != owner || vk == 0 {
        return false;
      }
      if enabled && vk in alphaReleased {
        alphaRevision := alphaRevision[vk := Get(alphaRevision, vk) + 1];
      }
      alphaReleased := if enabled then alphaReleased - {vk} else alphaReleased + {vk};
      alphaEpoch := alphaEpoch + 1;
      ok := true;
    }

    method SetDefaultAttester(caller: Address, who: Address, now: nat) returns (ok: bool)
      modifies this
      ensures ok == FactoryStep(old(Abs()), SetAttesterCall(caller, who), now).Some?
      ensures Abs() == FactoryAfter(old(Abs()), SetAttesterCall(caller, who), now)
    {
      ok := caller == owner && who != 0;
      if ok {
        defaultAttester, alphaEpoch := who, alphaEpoch + 1;
      }
    }

    method ProposePolicy(caller: Address, newPolicy: Address, hasCode: bool, now: nat) returns (ok: bool)
      modifies this
      ensures ok == FactoryStep(old(Abs()), ProposePolicyCall(caller, newPolicy, hasCode), now).Some?
      ensures Abs() == FactoryAfter(old(Abs()), ProposePolicyCall(caller, newPolicy, hasCode), now)
    {
      ok := caller == owner && hasCode;
      if ok {
        proposedPolicy, proposedPolicyEta := newPolicy, now + policyChangeDelay;
      }
    }

    method CancelPolicyProposal(caller: Address, now: nat) returns (ok: bool)
      modifies this
      ensures ok == FactoryStep(old(Abs()), CancelPolicyCall(caller), now).Some?
      ensures Abs() == FactoryAfter(old(Abs()), CancelPolicyCall(caller), now)
    {
      ok := caller == owner && proposedPolicyEta != 0;
      if ok {
        proposedPolicy, proposedPolicyEta := 0, 0;
      }
    }

    method ActivatePolicy(caller: Address, allows: bool, now: nat) returns (ok: bool)
      modifies this
      ensures ok == FactoryStep(old(Abs()), ActivatePolicyCall(caller, allows), now).Some?
      ensures Abs() == FactoryAfter(old(Abs()), ActivatePolicyCall(caller, allows), now)
    {
      var eta := proposedPolicyEta;
      if caller != owner || eta == 0 || now < eta {
        return false;
      }
      var newPolicy := proposedPolicy;
      if !allows {
        return false;
      }
      proposedPolicy, proposedPolicyEta := 0, 0;
      policy := newPolicy;
      ok := true;
    }

    method ProposeDefaultVerifier(caller: Address, verifier: Address, allows: bool, now: nat) returns (ok: bool)
      modifies this
      ensures ok == FactoryStep(old(Abs()), ProposeDefaultCall(caller, verifier, allows), now).Some?
      ensures Abs() == FactoryAfter(old(Abs()), ProposeDefaultCall(caller, verifier, allows), now)
    {
      ok := caller == owner && allows;
      if ok {
        proposedDefaultVerifier, proposedDefaultEta := verifier, now + DAYS_14;
      }
    }

    method CancelDefaultVerifierProposal(caller: Address, now: nat) returns (ok: bool)
      modifies this
      ensures ok == FactoryStep(old(Abs()), CancelDefaultCall(caller), now).Some?
      ensures Abs() == FactoryAfter(old(Abs()), CancelDefaultCall(caller), now)
    {
      ok := caller == owner && proposedDefaultEta != 0;
      if ok {
        proposedDefaultVerifier, proposedDefaultEta := 0, 0;
      }
    }

    method ActivateDefaultVerifier(caller: Address, allows: bool, now: nat) returns (ok: bool)
      modifies this
      ensures ok == FactoryStep(old(Abs()), ActivateDefaultCall(caller, allows), now).Some?
      ensures Abs() == FactoryAfter(old(Abs()), ActivateDefaultCall(caller, allows), now)
    {
      var eta := proposedDefaultEta;
      if caller != owner || eta == 0 || now < eta || !allows {
        return false;
      }
      var verifier := proposedDefaultVerifier;
      proposedDefaultVerifier, proposedDefaultEta := 0, 0;
      defaultVerifier := verifier;
      ok := true;
    }

    method DeployVaultImplementation(caller: Address, impl: Address, deployable: bool, bound: bool, makeDefault: bool,
                                     now: nat)
      returns (ok: bool)
      modifies this
      ensures ok == FactoryStep(old(Abs()), DeployImplementationCall(caller, impl, deployable, bound, makeDefault),
                                now).Some?
      ensures Abs() == FactoryAfter(old(Abs()), DeployImplementationCall(caller, impl, deployable, bound, makeDefault),
                                    now)
    {
      if caller != owner || !deployable || !bound {
        return false;
      }
      if proposedImplementationEta != 0 {
        return proposedImplementation == impl && proposedImplementationMakeDefault == makeDefault;
      }
      if impl in registeredImplementations && (!makeDefault || baseImplementation == impl) {
        return true;
      }
      proposedImplementation, proposedImplementationMakeDefault := impl, makeDefault;
      proposedImplementationEta := now + DAYS_14;
      ok := true;
    }

    method ProposeImplementation(caller: Address, impl: Address, hasCode: bool, bound: bool, now: nat)
      returns (ok: bool)
      modifies this
      ensures ok == FactoryStep(old(Abs()), ProposeImplementationCall(caller, impl, hasCode, bound), now).Some?
      ensures Abs() == FactoryAfter(old(Abs()), ProposeImplementationCall(caller, impl, hasCode, bound), now)
    {
      if caller != owner || !hasCode || impl in registeredImplementations || !bound {
        return false;
      }
      proposedImplementation, proposedImplementationMakeDefault := impl, false;
      proposedImplementationEta := now + DAYS_14;
      ok := true;
    }

    method ProposeDefaultImplementation(caller: Address, impl: Address, bound: bool, now: nat) returns (ok: bool)
      modifies this
      ensures ok == FactoryStep(old(Abs()), ProposeDefaultImplementationCall(caller, impl, bound), now).Some?
      ensures Abs() == FactoryAfter(old(Abs()), ProposeDefaultImplementationCall(caller, impl, bound), now)
    {
      if caller != owner || impl !in registeredImplementations || impl == baseImplementation || !bound {
        return false;
      }
      proposedImplementation, proposedImplementationMakeDefault := impl, true;
      proposedImplementationEta := now + DAYS_14;
      ok := true;
    }

    method CancelImplementationProposal(caller: Address, now: nat) returns (ok: bool)
      modifies this
      ensures ok == FactoryStep(old(Abs()), CancelImplementationCall(caller), now).Some?
      ensures Abs() == FactoryAfter(old(Abs()), CancelImplementationCall(caller), now)
    {
      ok := caller == owner && proposedImplementationEta != 0;
      if ok {
        proposedImplementation, proposedImplementationEta, proposedImplementationMakeDefault := 0, 0, false;
      }
    }

    method RegisterImplementation(caller: Address, hasCode: bool, bound: bool, now: nat) returns (ok: bool)
      modifies this
      ensures ok == FactoryStep(old(Abs()), RegisterImplementationCall(caller, hasCode, bound), now).Some?
      ensures Abs() == FactoryAfter(old(Abs()), RegisterImplementationCall(caller, hasCode, bound), now)
    {
      var eta := proposedImplementationEta;
      if caller != owner || eta == 0 || now < eta {
        return false;
      }
      var impl, makeDefault := proposedImplementation, proposedImplementationMakeDefault;
      if !hasCode || !bound {
        return false;
      }
      proposedImplementation, proposedImplementationEta, proposedImplementationMakeDefault := 0, 0, false;
      registeredImplementations := registeredImplementations + {impl};
      if makeDefault {
        baseImplementation := impl;
      }
      ok := true;
    }

    method RevokeImplementation(caller: Address, impl: Address, now: nat) returns (ok: bool)
      modifies this
      ensures ok == FactoryStep(old(Abs()), RevokeImplementationCall(caller, impl), now).Some?
      ensures Abs() == FactoryAfter(old(Abs()), RevokeImplementationCall(caller, impl), now)
    {
      ok := caller == owner && impl != baseImplementation && impl != initialImplementation
            && impl in registeredImplementations;
      if ok {
        registeredImplementations := registeredImplementations - {impl};
      }
    }
  }
}
