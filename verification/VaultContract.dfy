/**
 The vault contract on storage. Each method is proved to leave exactly the storage, and the payment,
 that its specification in Vault and System describes; a revert restores what was there before. Where
 the contract sends money next, the method returns the payment.
 */
module VaultContract {
  import opened Types
  import opened KeySet
  import opened Factory
  import opened Books
  import opened Sweeps
  import opened OwnerCache
  import V = Vault
  import S = System

  /** What a payout method hands to the transfer that follows it. */
  datatype Payment = Reverted | Payment(token: Address, to: Address, net: nat)

  function PaymentOf(o: V.Out): Payment {
    match o case Revert => Reverted case Out(_, token, to, net) => Payment(token, to, net)
  }

  /** The storage after an operation: its result, or what was there when it reverted. */
  function After(v: V.Vault, o: V.Out): V.Vault {
    match o case Revert => v case Out(v', _, _, _) => v'
  }

  /** Everything a transaction can change: what a revert puts back. */
  datatype Storage = Storage(
    deposits: seq<Deposit>, bucketTotal: map<Bucket, int>, trackedTotal: map<Address, int>,
    bucketDeposits: map<Bucket, seq<nat>>, bucketCursor: map<Bucket, int>, constraintDeposit: map<(Word, Address), int>,
    feesOwed: map<(Address, Address), int>, feesOwedTotal: map<Address, int>,
    owner: map<Address, int>, latestProofIat: map<Address, int>, ownerRevision: map<Address, int>,
    ownerVkHash: map<Address, int>, ownerAlphaRevision: map<Address, int>, untrackedProofIat: nat,
    alphaNonceUsed: set<nat>, locked: bool)

  ghost predicate SavesBooks(s: Storage, k: Books) {
    && s.deposits == k.deposits && s.bucketTotal == k.bucketTotal && s.trackedTotal == k.tracked
    && s.bucketDeposits == k.ids && s.bucketCursor == k.cursor && s.constraintDeposit == k.uses
    && s.feesOwed == k.feesOwed && s.feesOwedTotal == k.feesTotal
  }

  ghost predicate SavesOwners(s: Storage, ca: Cache) {
    && s.owner == ca.owner && s.latestProofIat == ca.latest && s.ownerRevision == ca.rev
    && s.ownerVkHash == ca.vk && s.ownerAlphaRevision == ca.alpha && s.untrackedProofIat == ca.untracked
  }

  ghost predicate Saves(s: Storage, v: V.Vault) {
    SavesBooks(s, v.k) && SavesOwners(s, v.ca) && s.alphaNonceUsed == v.nonces && s.locked == v.locked
  }

  lemma WalkStarts(k: Books, list: seq<nat>, from: nat, to: Address)
    requires from <= |list|
    ensures Walk(k, list, from, from, to) == Swept(k, 0, 0, 0)
  {
  }

  lemma WalkNext(k: Books, list: seq<nat>, from: nat, i: nat, to: Address)
    requires from <= i < |list|
    ensures var w := Walk(k, list, from, i, to);
            Walk(k, list, from, i + 1, to)
            == if list[i] < |w.k.deposits| && !w.k.deposits[list[i]].consumed then ClaimInto(w, list[i], to) else w
  {
  }

  lemma {:induction false} WalkKeepsLength(k: Books, list: seq<nat>, from: nat, end: nat, to: Address)
    requires end <= |list|
    ensures |Walk(k, list, from, end, to).k.deposits| == |k.deposits|
    decreases end
  {
    if from < end {
      WalkKeepsLength(k, list, from, end - 1, to);
    }
  }

  /** A failing prefix fails the whole list. */
  lemma {:induction false} ByIdsStops(k: Books, b: Bucket, list: seq<nat>, n: nat, m: nat, to: Address)
    requires n <= m <= |list| && ByIds(k, b, list, n, to).None?
    ensures ByIds(k, b, list, m, to).None?
    decreases m
  {
    if n < m {
      ByIdsStops(k, b, list, n, m - 1, to);
    }
  }

  class P2IDVault {
    var deposits: seq<Deposit>
    var bucketTotal: map<Bucket, int>
    var trackedTotal: map<Address, int>
    var bucketDeposits: map<Bucket, seq<nat>>
    var bucketCursor: map<Bucket, int>
    var constraintDeposit: map<(Word, Address), int>
    var feesOwed: map<(Address, Address), int>
    var feesOwedTotal: map<Address, int>
    var owner: map<Address, int>
    var latestProofIat: map<Address, int>
    var ownerRevision: map<Address, int>
    var ownerVkHash: map<Address, int>
    var ownerAlphaRevision: map<Address, int>
    var untrackedProofIat: nat
    var alphaNonceUsed: set<nat>
    var locked: bool
    var initialized: bool
    var nsHash: Word
    var saltCommitment: Word
    var minRefundWindow: nat
    var maxRefundWindow: nat
    /** The proxy this storage belongs to, and the factory its implementation was built for. */
    const self: Address
    const factory: Address
    ghost var events: seq<Event>
    ghost var accepted: seq<Acceptance>
    ghost var paid: seq<V.Payout>

    ghost function Money(): Books
      reads `deposits, `bucketTotal, `trackedTotal, `bucketDeposits, `bucketCursor, `constraintDeposit
      reads `feesOwed, `feesOwedTotal, `events
    {
      Books(deposits, bucketTotal, trackedTotal, bucketDeposits, bucketCursor, constraintDeposit, feesOwed,
            feesOwedTotal, events)
    }

    ghost function Owners(): Cache
      reads `owner, `latestProofIat, `ownerRevision, `ownerVkHash, `ownerAlphaRevision, `untrackedProofIat, `accepted
    {
      Cache(owner, latestProofIat, ownerRevision, ownerVkHash, ownerAlphaRevision, untrackedProofIat, accepted)
    }

    ghost function Abs(): V.Vault
      reads this
    {
      V.Vault(Money(), Owners(), alphaNonceUsed, paid, locked, saltCommitment, minRefundWindow,
              maxRefundWindow)
    }

    /** A proxy's storage before initialize(). */
    constructor (self: Address, factory: Address)
      ensures Abs() == V.Vault(NO_BOOKS, NO_CACHE, {}, [], false, 0, 0, 0) && !initialized
      ensures this.self == self && this.factory == factory
    {
      this.self, this.factory := self, factory;
      deposits, bucketTotal, trackedTotal, bucketDeposits, bucketCursor := [], map[], map[], map[], map[];
      constraintDeposit, feesOwed, feesOwedTotal, events := map[], map[], map[], [];
      owner, latestProofIat, ownerRevision, ownerVkHash, ownerAlphaRevision := map[], map[], map[], map[], map[];
      untrackedProofIat, accepted, alphaNonceUsed, paid, locked := 0, [], {}, [], false;
      initialized, nsHash, saltCommitment, minRefundWindow, maxRefundWindow := false, 0, 0, 0, 0;
    }

    /** Once, and only by the factory. */
    method Initialize(sender: Address, ns: Word, commitment: Word, minWindow: nat, maxWindow: nat) returns (ok: bool)
      modifies `initialized, `nsHash, `saltCommitment, `minRefundWindow, `maxRefundWindow
      ensures ok <==> sender == factory && !old(initialized) && minWindow <= maxWindow
      ensures ok ==> initialized && nsHash == ns && saltCommitment == commitment
                     && Abs() == old(Abs()).(salt := commitment, minWindow := minWindow, maxWindow := maxWindow)
      ensures !ok ==> Abs() == old(Abs()) && initialized == old(initialized) && nsHash == old(nsHash)
                      && saltCommitment == old(saltCommitment)
    {
      hide Money, Owners;
      if sender != factory || initialized || minWindow > maxWindow {
        return false;
      }
      initialized, nsHash, saltCommitment := true, ns, commitment;
      minRefundWindow, maxRefundWindow := minWindow, maxWindow;
      ok := true;
    }

    // ---------------------------------------------------------------- reverting

    /** These settings are not changed after initialization. */
    ghost predicate SettingsOf(v: V.Vault)
      reads `saltCommitment, `minRefundWindow, `maxRefundWindow
    {
      v.salt == saltCommitment && v.minWindow == minRefundWindow && v.maxWindow == maxRefundWindow
    }

    method Save() returns (s: Storage)
      ensures Saves(s, Abs())
    {
      s := Storage(deposits, bucketTotal, trackedTotal, bucketDeposits, bucketCursor, constraintDeposit, feesOwed,
                   feesOwedTotal, owner, latestProofIat, ownerRevision, ownerVkHash, ownerAlphaRevision,
                   untrackedProofIat, alphaNonceUsed, locked);
    }

    method RestoreBooks(s: Storage, ghost k0: Books)
      requires SavesBooks(s, k0)
      modifies `deposits, `bucketTotal, `trackedTotal, `bucketDeposits, `bucketCursor, `constraintDeposit, `feesOwed,
        `feesOwedTotal, `events
      ensures Money() == k0
    {
      deposits, bucketTotal, trackedTotal := s.deposits, s.bucketTotal, s.trackedTotal;
      bucketDeposits, bucketCursor, constraintDeposit := s.bucketDeposits, s.bucketCursor, s.constraintDeposit;
      feesOwed, feesOwedTotal, events := s.feesOwed, s.feesOwedTotal, k0.log;
    }

    method RestoreOwners(s: Storage, ghost ca0: Cache)
      requires SavesOwners(s, ca0)
      modifies `owner, `latestProofIat, `ownerRevision, `ownerVkHash, `ownerAlphaRevision, `untrackedProofIat, `accepted
      ensures Owners() == ca0
    {
      owner, latestProofIat, ownerRevision := s.owner, s.latestProofIat, s.ownerRevision;
      ownerVkHash, ownerAlphaRevision := s.ownerVkHash, s.ownerAlphaRevision;
      untrackedProofIat, accepted := s.untrackedProofIat, ca0.hist;
    }

    /** A revert: the transaction's start `v0` is back, with the histories that belong to it. */
    method Restore(s: Storage, ghost v0: V.Vault)
      requires Saves(s, v0) && SettingsOf(v0)
      modifies this
      ensures Abs() == v0
    {
      hide SavesBooks, SavesOwners, Money, Owners;
      alphaNonceUsed, locked, paid := s.alphaNonceUsed, s.locked, v0.paid;
      RestoreBooks(s, v0.k);
      RestoreOwners(s, v0.ca);
    }

    // ---------------------------------------------------------------- deposits

    method ConsumeDeposit(id: nat)
      requires id < |deposits|
      modifies `deposits, `bucketTotal, `trackedTotal
      ensures Money() == Consume(old(Money()), id)
    {
      var d := deposits[id];
      deposits := deposits[id := d.(consumed := true)];
      var b := Bucket(d.verifier, d.constraint, d.token);
      bucketTotal := bucketTotal[b := Get(bucketTotal, b) - d.amount];
      trackedTotal := trackedTotal[d.token := Get(trackedTotal, d.token) - d.amount];
    }

    method ClaimDeposit(id: nat, to: Address) returns (amount: nat, fee: nat)
      requires id < |deposits|
      modifies `deposits, `bucketTotal, `trackedTotal, `events
      ensures Money() == Claim(old(Money()), id, to)
      ensures amount == old(deposits)[id].amount && fee == ClaimFee(old(deposits)[id])
    {
      hide Consume;
      var d := deposits[id];
      ConsumeDeposit(id);
      amount := d.amount;
      fee := amount * d.feeBps / BPS;
      events := events + [Claimed(id, to, d.token, amount, fee)];
    }

    method ConsumeFromCursor(b: Bucket, limit: nat, to: Address) returns (amount: nat, fee: nat, consumed: nat)
      requires Indexed(Money())
      modifies `deposits, `bucketTotal, `trackedTotal, `events, `bucketCursor
      ensures Swept(Money(), amount, fee, consumed) == FromCursor(old(Money()), b, limit, to)
    {
      hide Indexed, Claim, ClaimFee, AllConsumed, Distinct, Walk;
      ghost var k0 := Money();
      BucketListFacts(k0, b);
      var ids := if b in bucketDeposits then bucketDeposits[b] else [];
      var i: nat := Get(bucketCursor, b);
      var end := |ids|;
      var page := if limit == 0 || limit > MAX_SWEEP_PAGE then MAX_SWEEP_PAGE else limit;
      if end - i > page {
        end := i + page;
      }
      amount, fee, consumed := ConsumeRange(ids, i, end, to);
      bucketCursor := bucketCursor[b := end];
    }

    /** The page loop: claim what is still unconsumed among ids[from..end]. */
    method ConsumeRange(ids: seq<nat>, from: nat, end: nat, to: Address) returns (amount: nat, fee: nat, consumed: nat)
      requires from <= end <= |ids| && forall j :: 0 <= j < |ids| ==> ids[j] < |deposits|
      modifies `deposits, `bucketTotal, `trackedTotal, `events
      ensures Swept(Money(), amount, fee, consumed) == Walk(old(Money()), ids, from, end, to)
    {
      hide Claim, ClaimFee, Walk;
      ghost var k0 := Money();
      WalkStarts(k0, ids, from, to);
      var i := from;
      amount, fee, consumed := 0, 0, 0;
      while i < end
        invariant from <= i <= end
        invariant Swept(Money(), amount, fee, consumed) == Walk(k0, ids, from, i, to)
      {
        WalkKeepsLength(k0, ids, from, i, to);
        WalkNext(k0, ids, from, i, to);
        var id := ids[i];
        if !deposits[id].consumed {
          var a, f := ClaimDeposit(id, to);
          amount, fee, consumed := amount + a, fee + f, consumed + 1;
        }
        i := i + 1;
      }
    }

    method ConsumeIds(b: Bucket, list: seq<nat>, to: Address)
      returns (ok: bool, amount: nat, fee: nat, ghost count: nat)
      modifies `deposits, `bucketTotal, `trackedTotal, `events
      ensures ok ==> ByIds(old(Money()), b, list, |list|, to) == Some(Swept(Money(), amount, fee, count))
      ensures !ok ==> ByIds(old(Money()), b, list, |list|, to).None?
    {
      hide Claim, ClaimFee;
      ghost var k0 := Money();
      amount, fee, count := 0, 0, 0;
      for n := 0 to |list|
        invariant ByIds(k0, b, list, n, to) == Some(Swept(Money(), amount, fee, count))
      {
        var id := list[n];
        if id >= |deposits| || Bucket(deposits[id].verifier, deposits[id].constraint, deposits[id].token) != b
           || deposits[id].consumed {
          assert ByIds(k0, b, list, n + 1, to).None?;
          ByIdsStops(k0, b, list, n + 1, |list|, to);
          return false, 0, 0, 0;
        }
        var a, f := ClaimDeposit(id, to);
        amount, fee, count := amount + a, fee + f, count + 1;
      }
      ok := true;
    }

    /** The checks of a funding call before any money moves. */
    method MayFund(c: Ctx, funder: Address, ver: Address, amount: nat, constraint: Word, window: nat) returns (ok: bool)
      ensures ok == V.MayFund(Abs(), c, funder, ver, amount, constraint, window)
    {
      if funder == 0 || ver !in c.allowed {
        return false;
      }
      if constraint != 0 {
        if !SupportsConstraints(c, ver) || Get(constraintDeposit, (constraint, funder)) != 0 {
          return false;
        }
      }
      ok := minRefundWindow <= window <= maxRefundWindow && 0 < amount <= MAX_U128;
    }

    /** Funding with native coin, whole: `c` is the outside with the value already received. */
    method FundNative(c: Ctx, funder: Address, value: nat, ver: Address, amount: nat, constraint: Word, window: nat)
      returns (id: Option<nat>)
      modifies `deposits, `constraintDeposit, `bucketDeposits, `bucketTotal, `trackedTotal, `events
      ensures id.Some? <==> !old(locked) && value == amount
                            && V.MayFund(old(Abs()), c, funder, ver, amount, constraint, window)
      ensures id.Some? ==> Abs() == V.Fund(old(Abs()), c, funder, ver, NATIVE, amount, constraint, window)
                           && id.value == |old(deposits)|
      ensures id.None? ==> Abs() == old(Abs())
    {
      hide V.MayFund, V.Fund;
      if locked || value != amount {
        return None;
      }
      var ok := MayFund(c, funder, ver, amount, constraint, window);
      if !ok {
        return None;
      }
      var n := RecordFunding(c, funder, ver, NATIVE, amount, constraint, window);
      id := Some(n);
    }

    /** Funding with a token, up to the pull: outside code runs next, with the lock held. */
    method BeginPull(c: Ctx, funder: Address, value: nat, ver: Address, t: Address, amount: nat, constraint: Word,
                     window: nat)
      returns (before: Option<int>)
      requires t != NATIVE
      modifies `locked
      ensures before.Some? <==> !old(locked) && value == 0 && t in c.bal
                                && V.MayFund(old(Abs()), c, funder, ver, amount, constraint, window)
      ensures before.Some? ==> before.value == Get(c.bal, t) && Abs() == old(Abs()).(locked := true)
      ensures before.None? ==> Abs() == old(Abs())
    {
      hide V.MayFund, Money, Owners;
      ghost var v0 := Abs();
      if locked || value != 0 || t !in c.bal {
        return None;
      }
      var ok := MayFund(c, funder, ver, amount, constraint, window);
      if !ok {
        return None;
      }
      locked := true;
      assert Abs() == v0.(locked := true);
      before := Some(Get(c.bal, t));
    }

    /** Funding with a token, after the pull: credit what arrived, or revert the whole call to its start `v0`. */
    method EndPull(before: int, s: Storage, ghost v0: V.Vault, c: Ctx, funder: Address, ver: Address, t: Address,
                   constraint: Word, window: nat)
      returns (id: Option<nat>)
      requires locked && Saves(s, v0) && SettingsOf(v0)
      modifies this
      ensures var credited := Get(c.bal, t) - before;
              && (id.Some? <==> 0 < credited <= MAX_U128)
              && (id.Some? ==> id.value == |old(deposits)|
                               && Abs() == V.Fund(old(Abs()), c, funder, ver, t, credited, constraint, window)
                                           .(locked := false))
              && (id.None? ==> Abs() == v0)
    {
      hide V.Fund, Money, Owners, Saves;
      var credited := Get(c.bal, t) - before;
      if credited <= 0 || credited > MAX_U128 {
        Restore(s, v0);
        return None;
      }
      var n := RecordFunding(c, funder, ver, t, credited, constraint, window);
      ghost var v1 := Abs();
      locked := false;
      assert Abs() == v1.(locked := false);
      id := Some(n);
    }

    /** Record a funded deposit at the rate quoted now. */
    method RecordFunding(c: Ctx, funder: Address, ver: Address, t: Address, credited: nat, constraint: Word,
                         window: nat)
      returns (id: nat)
      modifies `deposits, `constraintDeposit, `bucketDeposits, `bucketTotal, `trackedTotal, `events
      ensures Abs() == V.Fund(old(Abs()), c, funder, ver, t, credited, constraint, window)
      ensures id == |old(deposits)|
    {
      hide V.Quote, Record;
      var feeBps := V.Quote(c, ver, t);
      id := IndexDeposit(Deposit(funder, c.now, false, t, window, ver, feeBps, credited, constraint));
    }

    method IndexDeposit(d: Deposit) returns (id: nat)
      modifies `deposits, `constraintDeposit, `bucketDeposits, `bucketTotal, `trackedTotal, `events
      ensures Money() == Record(old(Money()), d)
      ensures id == |old(deposits)|
    {
      ghost var k0 := Money();
      id := PushDeposit(d);
      AddToBucket(d, id);
      assert Money() == Record(k0, d) by {
        assert bucketDeposits == Record(k0, d).ids && bucketTotal == Record(k0, d).bucketTotal;
      }
    }

    method PushDeposit(d: Deposit) returns (id: nat)
      modifies `deposits, `constraintDeposit
      ensures id == |old(deposits)| && deposits == old(deposits) + [d]
      ensures constraintDeposit
              == if d.constraint != 0 then old(constraintDeposit)[(d.constraint, d.funder) := id + 1]
                else old(constraintDeposit)
    {
      id := |deposits|;
      deposits := deposits + [d];
      if d.constraint != 0 {
        constraintDeposit := constraintDeposit[(d.constraint, d.funder) := id + 1];
      }
    }

    method AddToBucket(d: Deposit, id: nat)
      modifies `bucketDeposits, `bucketTotal, `trackedTotal, `events
      ensures var b := BucketOf(d);
              && bucketDeposits
                 == old(bucketDeposits)[b := (if b in old(bucketDeposits) then old(bucketDeposits)[b] else []) + [id]]
              && bucketTotal == old(bucketTotal)[b := Get(old(bucketTotal), b) + d.amount]
      ensures trackedTotal == old(trackedTotal)[d.token := Get(old(trackedTotal), d.token) + d.amount]
      ensures events == old(events) + [Funded(id, d.funder, d.token, d.amount)]
    {
      var b := Bucket(d.verifier, d.constraint, d.token);
      bucketDeposits := bucketDeposits[b := (if b in bucketDeposits then bucketDeposits[b] else []) + [id]];
      bucketTotal := bucketTotal[b := Get(bucketTotal, b) + d.amount];
      trackedTotal := trackedTotal[d.token := Get(trackedTotal, d.token) + d.amount];
      events := events + [Funded(id, d.funder, d.token, d.amount)];
    }

    method RefundDeposit(c: Ctx, caller: Address, id: nat) returns (p: Payment)
      modifies `deposits, `bucketTotal, `trackedTotal, `events
      ensures var o := V.RefundDeposit(old(Abs()), c, caller, id); p == PaymentOf(o) && Abs() == After(old(Abs()), o)
    {
      hide Refund;
      if id >= |deposits| {
        return Reverted;
      }
      var d := deposits[id];
      if d.funder != caller || d.consumed || c.now <= d.fundedAt + d.window {
        return Reverted;
      }
      ReturnDeposit(id);
      p := Payment(d.token, caller, d.amount);
    }

    method ReturnDeposit(id: nat)
      requires id < |deposits|
      modifies `deposits, `bucketTotal, `trackedTotal, `events
      ensures Money() == Refund(old(Money()), id)
    {
      hide Consume;
      var d := deposits[id];
      ConsumeDeposit(id);
      events := events + [Refunded(id, d.funder, d.token, d.amount)];
    }

    // ---------------------------------------------------------------- owner cache

    method IsFresh(c: Ctx, v: Address) returns (yes: bool)
      ensures yes == OwnerFresh(Owners(), c, v)
    {
      var reading := Revision(c, v);
      if reading.None? || Get(ownerRevision, v) != reading.value {
        return false;
      }
      var key := VkHash(c, v);
      yes := key.Some? && key.value != 0 && Get(ownerVkHash, v) == key.value
             && Get(ownerAlphaRevision, v) == AlphaRevision(c.f, key.value);
    }

    method CachedOwner(c: Ctx, v: Address) returns (to: Option<Address>)
      ensures to == OwnerOf(Abs().ca, c, v)
    {
      hide OwnerFresh;
      if !Claimable(c, v) || Get(owner, v) <= 0 {
        return None;
      }
      var yes := IsFresh(c, v);
      to := if yes then Some(Get(owner, v)) else None;
    }

    /** The first step of applying a proof: install a newer owner, or renew the recorded one. */
    method InstallOwner(c: Ctx, v: Address, wallet: Address, iat: nat, rev: nat)
      modifies `owner, `latestProofIat, `ownerRevision
      ensures Owners() == Installed(old(Owners()), c, v, wallet, iat, rev)
    {
      hide OwnerFresh;
      var current := IsFresh(c, v);
      if iat > Get(latestProofIat, v) || Get(owner, v) == 0 {
        owner, latestProofIat, ownerRevision := owner[v := wallet], latestProofIat[v := iat], ownerRevision[v := rev];
      } else if !current && wallet == Get(owner, v) {
        ownerRevision := ownerRevision[v := rev];
      }
    }

    method ApplyProof(c: Ctx, v: Address, ghost origin: Origin, wallet: Address, iat: nat, ghost auth: Auth)
      returns (ok: bool)
      modifies `owner, `latestProofIat, `ownerRevision, `ownerVkHash, `ownerAlphaRevision, `untrackedProofIat, `accepted
      ensures ok ==> Apply(old(Owners()), c, v, origin, wallet, iat, auth) == Some(Owners())
      ensures !ok ==> Apply(old(Owners()), c, v, origin, wallet, iat, auth).None?
    {
      hide Installed, Revision, VkHash, KeyOf, AlphaRevision, IsAlpha;
      if wallet == 0 || iat > c.now + FUTURE_SLACK {
        return false;
      }
      var reading := Revision(c, v);
      if reading.None? || iat < Get(latestProofIat, v) {
        return false;
      }
      var rev := reading.value;
      InstallOwner(c, v, wallet, iat, rev);
      var bound := wallet == Get(owner, v) && iat == Get(latestProofIat, v);
      if bound {
        var key := KeyOf(c, v);
        if key == 0 {
          return false;
        }
        ownerVkHash := ownerVkHash[v := key];
        ownerAlphaRevision := ownerAlphaRevision[v := AlphaRevision(c.f, key)];
      }
      if iat > untrackedProofIat && v == c.f.defaultVerifier {
        untrackedProofIat := iat;
      }
      accepted := accepted + [RecordOf(c, v, origin, wallet, iat, rev, auth, bound)];
      ok := true;
    }

    /** The alpha modifier: checks, then marks the nonce used before the call's own work. */
    method SpendAttestation(c: Ctx, ver: Address, att: V.AlphaAttestation) returns (ok: bool, ghost auth: Auth)
      modifies `alphaNonceUsed
      ensures ok ==> V.Authorise(old(Abs()), c, ver, att) == Some((Abs(), auth))
      ensures !ok ==> V.Authorise(old(Abs()), c, ver, att).None?
    {
      auth := Unattested;
      var key := VkHash(c, ver);
      if key.None? {
        return false, auth;
      }
      if IsAlpha(c.f, key.value) {
        if !att.present || att.nonce in alphaNonceUsed || !V.VerifyAlpha(c.f, c.now, att) {
          return false, auth;
        }
        alphaNonceUsed := alphaNonceUsed + {att.nonce};
        auth := VaultNonce(att.nonce);
      }
      ok := true;
    }

    /** Applying a proof, as a step of the whole vault. */
    method ApplyStep(c: Ctx, v: Address, ghost origin: Origin, wallet: Address, iat: nat, ghost auth: Auth)
      returns (ok: bool)
      modifies `owner, `latestProofIat, `ownerRevision, `ownerVkHash, `ownerAlphaRevision, `untrackedProofIat, `accepted
      ensures ok ==> Apply(old(Abs()).ca, c, v, origin, wallet, iat, auth) == Some(Abs().ca)
      ensures !ok ==> Apply(old(Abs()).ca, c, v, origin, wallet, iat, auth).None?
      ensures Abs() == old(Abs()).(ca := Abs().ca)
    {
      hide Apply;
      ghost var v0 := Abs();
      ok := ApplyProof(c, v, origin, wallet, iat, auth);
      assert Abs() == v0.(ca := Owners());
    }

    /** Verify a proof for this vault and apply its result. */
    method PresentProof(c: Ctx, ver: Address, constraint: Word, p: Proof, ghost auth: Auth) returns (ok: bool)
      modifies `owner, `latestProofIat, `ownerRevision, `ownerVkHash, `ownerAlphaRevision, `untrackedProofIat, `accepted
      ensures ok ==> V.Present(old(Abs()), c, ver, constraint, p, auth) == Some(Abs())
      ensures !ok ==> V.Present(old(Abs()), c, ver, constraint, p, auth).None?
    {
      hide Money, Owners, Apply, Verifies, Claimable;
      ok := Claimable(c, ver) && Verifies(c, ver, saltCommitment, constraint, p);
      if ok {
        ok := ApplyStep(c, ver, p.origin, p.wallet, p.iat, auth);
      }
    }

    method ProveOwner(c: Ctx, ver: Address, constraint: Word, p: Proof, att: V.AlphaAttestation) returns (ok: bool)
      modifies `owner, `latestProofIat, `ownerRevision, `ownerVkHash, `ownerAlphaRevision, `untrackedProofIat,
               `accepted,
        `alphaNonceUsed
      ensures ok ==> V.Prove(old(Abs()), c, ver, constraint, p, att) == Some(Abs())
      ensures !ok ==> V.Prove(old(Abs()), c, ver, constraint, p, att).None?
    {
      hide Abs, V.Present, V.Authorise;
      ghost var auth := Unattested;
      ok, auth := SpendAttestation(c, ver, att);
      if ok {
        ok := PresentProof(c, ver, constraint, p, auth);
      }
    }

    /** refreshProof: prove, and revert the whole call on failure. */
    method RefreshProof(c: Ctx, ver: Address, p: Proof, att: V.AlphaAttestation) returns (ok: bool)
      modifies this
      ensures ok ==> V.Prove(old(Abs()), c, ver, 0, p, att) == Some(Abs())
      ensures !ok ==> V.Prove(old(Abs()), c, ver, 0, p, att).None? && Abs() == old(Abs())
    {
      hide V.Prove, Saves;
      ghost var v0 := Abs();
      var s := Save();
      ok := ProveOwner(c, ver, 0, p, att);
      if !ok {
        Restore(s, v0);
      }
    }

    /** The upgrade hook: only the proxy itself may call it, and a failure leaves everything as it was. */
    method AcceptOwnerProof(sender: Address, c: Ctx, ver: Address, ghost origin: Origin, wallet: Address, iat: nat,
                            ghost auth: Auth)
      returns (ok: bool)
      modifies this
      ensures ok ==> sender == self && S.AcceptOwnerProof(old(Abs()), c, ver, origin, wallet, iat, auth) == Some(Abs())
      ensures !ok ==> Abs() == old(Abs())
                      && (sender != self || S.AcceptOwnerProof(old(Abs()), c, ver, origin, wallet, iat, auth).None?)
    {
      hide S.AcceptOwnerProof, Saves, Money, Owners;
      ghost var v0 := Abs();
      var s := Save();
      ok := sender == self;
      if ok {
        ok := HookBody(c, ver, origin, wallet, iat, auth);
      }
      if !ok {
        Restore(s, v0);
      }
    }

    method HookBody(c: Ctx, ver: Address, ghost origin: Origin, wallet: Address, iat: nat, ghost auth: Auth)
      returns (ok: bool)
      modifies `owner, `latestProofIat, `ownerRevision, `ownerVkHash, `ownerAlphaRevision, `untrackedProofIat,
               `accepted, `locked
      ensures ok ==> S.AcceptOwnerProof(old(Abs()), c, ver, origin, wallet, iat, auth) == Some(Abs())
      ensures !ok ==> S.AcceptOwnerProof(old(Abs()), c, ver, origin, wallet, iat, auth).None?
    {
      hide Apply, Claimable, Money, Owners;
      ghost var v0 := Abs();
      if locked || !Claimable(c, ver) {
        return false;
      }
      locked := true;
      assert Abs() == v0.(locked := true);
      ok := ApplyStep(c, ver, origin, wallet, iat, auth);
      ghost var v1 := Abs();
      ok := ok && OwnerIs(ver, wallet);
      locked := false;
      assert Abs() == v1.(locked := false);
    }

    predicate OwnerIs(ver: Address, wallet: Address)
      reads this
      ensures OwnerIs(ver, wallet) == (Get(Abs().ca.owner, ver) == wallet)
    {
      Get(owner, ver) == wallet
    }

    // ---------------------------------------------------------------- payouts and fees

    method UntrackedBalance(c: Ctx, t: Address) returns (u: Option<nat>)
      ensures u == V.Untracked(Abs().k, c, t)
    {
      if !V.KnownToken(c, t) {
        return None;
      }
      var balance, held := Get(c.bal, t), Get(trackedTotal, t) + Get(feesOwedTotal, t);
      u := Some(if balance > held then balance - held else 0);
    }

    /** The untracked surplus a default sweep includes. */
    method EligibleSurplus(c: Ctx, ver: Address, t: Address) returns (u: Option<nat>)
      ensures u == V.Loose(Abs(), c, ver, t)
    {
      hide OwnerFresh, V.Untracked;
      var yes := IsFresh(c, ver);
      if ver == c.f.defaultVerifier && yes && Get(latestProofIat, ver) >= untrackedProofIat {
        u := UntrackedBalance(c, t);
      } else {
        u := Some(0);
      }
    }

    /** The view that quotes a sweep. */
    method SweepableView(c: Ctx, ver: Address, t: Address) returns (amount: Option<int>)
      ensures amount == V.Quoted(Abs(), c, ver, t)
    {
      hide V.Loose;
      var u := EligibleSurplus(c, ver, t);
      amount := if u.None? then None else Some(Get(bucketTotal, Bucket(ver, 0, t)) + u.value);
    }

    method AccrueFee(ver: Address, t: Address, fee: nat)
      modifies `feesOwed, `feesOwedTotal, `events
      ensures Money() == Accrue(old(Money()), ver, t, fee)
    {
      if fee != 0 {
        feesOwed := feesOwed[(ver, t) := Get(feesOwed, (ver, t)) + fee];
        feesOwedTotal := feesOwedTotal[t := Get(feesOwedTotal, t) + fee];
        events := events + [FeeAccrued(ver, t, fee)];
      }
    }

    method PayOut(c: Ctx, ver: Address, constraint: Word, t: Address, to: Address, gross: nat, fee: nat,
                  ghost untracked: nat)
      returns (net: nat)
      requires fee <= gross
      modifies `feesOwed, `feesOwedTotal, `events, `paid
      ensures V.Pay(old(Abs()), c, ver, constraint, t, to, gross, fee, untracked) == V.Out(Abs(), t, to, net)
    {
      hide Accrue;
      ghost var logged := |events|;
      AccrueFee(ver, t, fee);
      paid := paid + [V.Payout(ver, constraint, t, to, gross, fee, untracked, ver == c.f.defaultVerifier, |accepted|,
                              V.Quote(c, ver, t), logged)];
      net := gross - fee;
    }

    /** One page of a bucket, as a step of the whole vault. */
    method TakePage(b: Bucket, limit: nat, to: Address) returns (gross: nat, fee: nat)
      requires Indexed(Abs().k)
      modifies `deposits, `bucketTotal, `trackedTotal, `events, `bucketCursor
      ensures var w := FromCursor(old(Abs()).k, b, limit, to);
              gross == w.gross && fee == w.fee && Abs() == old(Abs()).(k := w.k)
    {
      hide FromCursor, Indexed;
      ghost var v0, consumed := Abs(), 0;
      gross, fee, consumed := ConsumeFromCursor(b, limit, to);
      assert Abs() == v0.(k := Money());
    }

    /** Listed deposits of a bucket, as a step of the whole vault. */
    method TakeIds(b: Bucket, ids: seq<nat>, to: Address) returns (ok: bool, gross: nat, fee: nat)
      modifies `deposits, `bucketTotal, `trackedTotal, `events
      ensures var w := ByIds(old(Abs()).k, b, ids, |ids|, to);
              ok == w.Some? && (ok ==>
                gross == w.value.gross && fee == w.value.fee && Abs() == old(Abs()).(k := w.value.k))
    {
      hide ByIds;
      ghost var v0, count := Abs(), 0;
      ok, gross, fee, count := ConsumeIds(b, ids, to);
      assert Abs() == v0.(k := Money());
    }

    method SweepDefault(c: Ctx, ver: Address, t: Address, limit: nat) returns (p: Payment)
      requires BooksInv(Abs().k)
      modifies `deposits, `bucketTotal, `trackedTotal, `events, `bucketCursor, `feesOwed, `feesOwedTotal, `paid
      ensures var o := V.SweepDefault(old(Abs()), c, ver, t, limit); p == PaymentOf(o) && Abs() == After(old(Abs()), o)
    {
      hide Abs, Money, BooksInv, Indexed, OwnerOf, V.Loose, V.LooseFee, V.Quote, FromCursor, V.Pay;
      var to := CachedOwner(c, ver);
      if to.None? {
        return Reverted;
      }
      var untracked := EligibleSurplus(c, ver, t);
      if untracked.None? {
        return Reverted;
      }
      var looseFee := V.LooseFee(c, ver, t, untracked.value);
      if looseFee.None? {
        return Reverted;
      }
      SweepCharges(Abs().k, Bucket(ver, 0, t), limit, to.value, c, untracked.value);
      var gross, fee := TakePage(Bucket(ver, 0, t), limit, to.value);
      var net := PayOut(c, ver, 0, t, to.value, gross + untracked.value, fee + looseFee.value, untracked.value);
      p := Payment(t, to.value, net);
    }

    method SweepUntracked(c: Ctx, t: Address) returns (p: Payment)
      modifies `feesOwed, `feesOwedTotal, `events, `paid
      ensures var o := V.SweepUntracked(old(Abs()), c, t); p == PaymentOf(o) && Abs() == After(old(Abs()), o)
    {
      hide OwnerOf, V.Untracked, V.LooseFee, V.Pay;
      var ver := c.f.defaultVerifier;
      var to := CachedOwner(c, ver);
      if to.None? || Get(latestProofIat, ver) < untrackedProofIat {
        return Reverted;
      }
      var gross := UntrackedBalance(c, t);
      if gross.None? {
        return Reverted;
      }
      var fee := V.LooseFee(c, ver, t, gross.value);
      if fee.None? {
        return Reverted;
      }
      LooseFeeCap(c, ver, t, gross.value);
      var net := PayOut(c, ver, 0, t, to.value, gross.value, fee.value, gross.value);
      p := Payment(t, to.value, net);
    }

    method SweepDeposits(c: Ctx, ver: Address, t: Address, ids: seq<nat>) returns (p: Payment)
      requires BooksInv(Abs().k)
      modifies this
      ensures var o := V.SweepDeposits(old(Abs()), c, ver, t, ids); p == PaymentOf(o) && Abs() == After(old(Abs()), o)
    {
      hide BooksInv, OwnerOf, V.Pay, ByIds, Saves, Money, Owners;
      ghost var v0 := Abs();
      var s := Save();
      var to := CachedOwner(c, ver);
      if to.None? {
        return Reverted;
      }
      IdsCharge(Abs().k, Bucket(ver, 0, t), ids, to.value);
      var ok, gross, fee := TakeIds(Bucket(ver, 0, t), ids, to.value);
      if !ok {
        Restore(s, v0);
        return Reverted;
      }
      var net := PayOut(c, ver, 0, t, to.value, gross, fee, 0);
      p := Payment(t, to.value, net);
    }

    method SweepBucket(c: Ctx, ver: Address, constraint: Word, t: Address, proof: Proof, limit: nat,
                       att: V.AlphaAttestation)
      returns (p: Payment)
      requires BooksInv(Abs().k)
      modifies this
      ensures var o := V.SweepBucket(old(Abs()), c, ver, constraint, t, proof, limit, att);
              p == PaymentOf(o) && Abs() == After(old(Abs()), o)
    {
      hide BooksInv, Indexed, V.Pay, V.Prove, FromCursor, Saves, Money, Owners;
      ghost var v0 := Abs();
      var s := Save();
      ProveKeepsBooks(v0, c, ver, constraint, proof, att);
      var ok := ProveOwner(c, ver, constraint, proof, att);
      if !ok || constraint == 0 {
        Restore(s, v0);
        return Reverted;
      }
      PageCharges(Abs().k, Bucket(ver, constraint, t), limit, proof.wallet);
      var gross, fee := TakePage(Bucket(ver, constraint, t), limit, proof.wallet);
      var net := PayOut(c, ver, constraint, t, proof.wallet, gross, fee, 0);
      p := Payment(t, proof.wallet, net);
    }

    method SweepBucketDeposits(c: Ctx, ver: Address, constraint: Word, t: Address, proof: Proof, ids: seq<nat>,
                               att: V.AlphaAttestation)
      returns (p: Payment)
      requires BooksInv(Abs().k)
      modifies this
      ensures var o := V.SweepBucketDeposits(old(Abs()), c, ver, constraint, t, proof, ids, att);
              p == PaymentOf(o) && Abs() == After(old(Abs()), o)
    {
      hide BooksInv, V.Pay, V.Prove, ByIds, Saves, Money, Owners;
      ghost var v0 := Abs();
      var s := Save();
      ProveKeepsBooks(v0, c, ver, constraint, proof, att);
      var ok := ProveOwner(c, ver, constraint, proof, att);
      if !ok || constraint == 0 {
        Restore(s, v0);
        return Reverted;
      }
      IdsCharge(Abs().k, Bucket(ver, constraint, t), ids, proof.wallet);
      var found, gross, fee := TakeIds(Bucket(ver, constraint, t), ids, proof.wallet);
      if !found {
        Restore(s, v0);
        return Reverted;
      }
      var net := PayOut(c, ver, constraint, t, proof.wallet, gross, fee, 0);
      p := Payment(t, proof.wallet, net);
    }

    method RefreshAndSweep(c: Ctx, ver: Address, proof: Proof, t: Address, limit: nat, att: V.AlphaAttestation)
      returns (p: Payment)
      requires BooksInv(Abs().k)
      modifies this
      ensures var o := V.RefreshAndSweep(old(Abs()), c, ver, proof, t, limit, att);
              p == PaymentOf(o) && Abs() == After(old(Abs()), o)
    {
      hide BooksInv, V.SweepDefault, V.Prove, Saves, Money, Owners;
      ghost var v0 := Abs();
      var s := Save();
      ProveKeepsBooks(v0, c, ver, 0, proof, att);
      var ok := ProveOwner(c, ver, 0, proof, att);
      if ok {
        p := SweepDefault(c, ver, t, limit);
      }
      if !ok || p.Reverted? {
        Restore(s, v0);
        p := Reverted;
      }
    }

    /** Distributing fees, up to the call of the policy; None when nothing is owed or the call may not start. */
    method BeginFees(c: Ctx, ver: Address, t: Address) returns (owed: Option<int>)
      modifies `locked
      ensures owed.Some? <==> !old(locked) && Get(old(Abs()).k.feesOwed, (ver, t)) > 0 && V.KnownToken(c, t)
      ensures owed.Some? ==> owed.value == Get(old(Abs()).k.feesOwed, (ver, t)) && Abs() == old(Abs()).(locked := true)
      ensures owed.None? ==> Abs() == old(Abs())
    {
      hide Owners;
      ghost var v0 := Abs();
      if locked || Get(feesOwed, (ver, t)) <= 0 || !V.KnownToken(c, t) {
        return None;
      }
      owed := Some(Get(feesOwed, (ver, t)));
      locked := true;
      assert Abs() == v0.(locked := true);
    }

    /**
     Distributing fees, after the call: native coin went along with it, of a token counts what the balance
     lost. More than was owed reverts the whole call to its start `v0`.
     */
    method EndFees(before: int, owed: nat, s: Storage, ghost v0: V.Vault, c: Ctx, ver: Address, t: Address)
      returns (amount: Option<nat>)
      requires locked && Saves(s, v0) && SettingsOf(v0)
      modifies this
      ensures var spent := Get(c.bal, t) - before;
              var due := if t == NATIVE then owed else if spent < 0 then -spent else 0;
              if due > owed then amount.None? && Abs() == v0
              else
                && amount == Some(due)
                && Abs() == old(Abs()).(k := Distribute(old(Abs()).k, ver, t, due), locked := false)
    {
      hide Distribute, Money, Owners, Saves;
      var after := Get(c.bal, t);
      var due: nat := if t == NATIVE then owed else if before > after then before - after else 0;
      if due > owed {
        Restore(s, v0);
        return None;
      }
      ghost var v1 := Abs();
      SettleFees(ver, t, due);
      assert Abs() == v1.(k := Distribute(v1.k, ver, t, due));
      locked := false;
      assert Abs() == v1.(k := Distribute(v1.k, ver, t, due), locked := false);
      amount := Some(due);
    }

    /** Book what a fee distribution cost the vault. */
    method SettleFees(ver: Address, t: Address, amount: nat)
      modifies `feesOwed, `feesOwedTotal, `events
      ensures Money() == Distribute(old(Money()), ver, t, amount)
    {
      ghost var k1 := Distribute(Money(), ver, t, amount);
      var owed := Get(feesOwed, (ver, t));
      feesOwed := feesOwed[(ver, t) := owed - amount];
      feesOwedTotal := feesOwedTotal[t := Get(feesOwedTotal, t) - amount];
      events := events + [FeesDistributed(ver, t, amount)];
      assert Money() == k1 by {
        assert feesOwed == k1.feesOwed && feesOwedTotal == k1.feesTotal && events == k1.log;
      }
    }
  }

  // ------------------------------------------------------------------ charges never exceed what is paid

  lemma PageCharges(k: Books, b: Bucket, limit: nat, to: Address)
    requires BooksInv(k)
    ensures Indexed(k) && FromCursor(k, b, limit, to).fee <= FromCursor(k, b, limit, to).gross
  {
    hide Totals, Recorded, Ledger;
    FromCursorTakes(k, b, limit, to);
  }

  lemma SweepCharges(k: Books, b: Bucket, limit: nat, to: Address, c: Ctx, u: nat)
    requires BooksInv(k)
    ensures Indexed(k) && FromCursor(k, b, limit, to).fee <= FromCursor(k, b, limit, to).gross
    ensures V.LooseFee(c, b.verifier, b.token, u).Some? ==> V.LooseFee(c, b.verifier, b.token, u).value <= u
  {
    PageCharges(k, b, limit, to);
    LooseFeeCap(c, b.verifier, b.token, u);
  }

  lemma LooseFeeCap(c: Ctx, ver: Address, t: Address, u: nat)
    ensures V.LooseFee(c, ver, t, u).Some? ==> V.LooseFee(c, ver, t, u).value <= u
  {
    assert u * V.Quote(c, ver, t) <= u * 100;
  }

  lemma IdsCharge(k: Books, b: Bucket, ids: seq<nat>, to: Address)
    requires BooksInv(k)
    ensures ByIds(k, b, ids, |ids|, to).Some?
            ==> ByIds(k, b, ids, |ids|, to).value.fee <= ByIds(k, b, ids, |ids|, to).value.gross
  {
    ByIdsTakes(k, b, ids, |ids|, to);
  }

  lemma ProveKeepsBooks(v: V.Vault, c: Ctx, ver: Address, constraint: Word, p: Proof, att: V.AlphaAttestation)
    ensures V.Prove(v, c, ver, constraint, p, att).Some? ==> V.Prove(v, c, ver, constraint, p, att).value.k == v.k
  {
    hide Apply, V.VerifyAlpha, Verifies;
  }
}
