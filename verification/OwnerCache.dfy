/**
 The per-verifier owner cache of P2IDVault and its four freshness tests, with the full history of
 accepted proofs beside it: what the cache holds is characterised by that history alone.
 */
module OwnerCache {
  import opened Types
  import opened KeySet
  import opened Factory

  const FUTURE_SLACK: nat := MINUTES_15

  /**
   What a verifier contract answers. A PviumVerifier forwards the revision and pinned key hash of the
   identity contract it was deployed for, which others may share; any other contract may answer anything, or
   fail (None).
   */
  datatype Verifier =
    | Pvium(identity: Address, vk: Word, supports: bool)
    | Foreign(reading: Option<nat>, vkReading: Option<Word>, supports: bool)

  /**
   Everything a vault reads from outside itself. `bal` holds its balance in each known token, `guarded` the
   implementations whose code says that it supports the alpha guard.
   */
  datatype Ctx = Ctx(now: nat, verifiers: map<Address, Verifier>, identities: map<Address, KeyState>,
                     allowed: set<Address>, quotes: map<(Address, Address), int>, f: FactoryState,
                     bal: map<Address, int>, guarded: set<Address>)

  /** What a proof is about: who signed its token, whose identity it shows, which constraint comes with evidence. */
  datatype Origin = Origin(signer: Key, identity: Word, evidence: Word)

  /** A presented proof: its origin, the wallet and time it attests, and whether every other check passes. */
  datatype Proof = Proof(origin: Origin, wallet: Address, iat: nat, verifies: bool)

  /** How the call that applied a proof was authorised during alpha. */
  datatype Auth = Unattested | VaultNonce(nonce: nat) | ProxyNonce(nonce: nat)

  /** One accepted proof, with what was true when it was accepted. `bound`: it (re)validated the cache. */
  datatype Acceptance = Acceptance(
    verifier: Address, wallet: Address, iat: nat, origin: Origin, asDefault: bool,
    rev: nat, key: Word, alphaRev: int, released: bool, auth: Auth, bound: bool)

  datatype Cache = Cache(
    owner: map<Address, int>, latest: map<Address, int>, rev: map<Address, int>,
    vk: map<Address, int>, alpha: map<Address, int>, untracked: nat, hist: seq<Acceptance>)

  const NO_CACHE := Cache(map[], map[], map[], map[], map[], 0, [])

  // ------------------------------------------------------------------ readings

  predicate IsPvium(c: Ctx, v: Address) {
    v in c.verifiers && c.verifiers[v].Pvium? && c.verifiers[v].identity in c.identities
  }

  /** The key set a PviumVerifier reads. */
  function KeysOf(c: Ctx, v: Address): KeyState
    requires IsPvium(c, v)
  {
    c.identities[c.verifiers[v].identity]
  }

  /** A reading beyond 64 bits counts as none. */
  function Revision(c: Ctx, v: Address): (r: Option<nat>)
    ensures r.Some? ==> r.value <= MAX_U64
  {
    if v !in c.verifiers then None
    else
      var r :=
        match c.verifiers[v]
        case Pvium(identity, _, _) => if identity in c.identities then Some(c.identities[identity].revision) else None
        case Foreign(reading, _, _) => reading;
      if r.Some? && r.value > MAX_U64 then None else r
  }

  function VkHash(c: Ctx, v: Address): Option<Word> {
    if v !in c.verifiers then None
    else match c.verifiers[v] case Pvium(_, vk, _) => Some(vk) case Foreign(_, vkReading, _) => vkReading
  }

  function SupportsConstraints(c: Ctx, v: Address): bool {
    v in c.verifiers && c.verifiers[v].supports
  }

  /** The current default needs no policy approval. */
  predicate Claimable(c: Ctx, v: Address) {
    v == c.f.defaultVerifier || v in c.allowed
  }

  /**
   getIdentityWallet: the proof is for this identity and, if one is asked for, this constraint. A PviumVerifier
   accepts only currently accepted signers and nonzero wallets, and constraints only with a registered signer.
   */
  predicate Verifies(c: Ctx, v: Address, identity: Word, constraint: Word, p: Proof) {
    && v in c.verifiers
    && p.verifies && p.origin.identity == identity
    && (constraint != 0 ==> p.origin.evidence == constraint)
    && (c.verifiers[v].Pvium? ==>
          && IsPvium(c, v) && p.origin.signer in KeysOf(c, v).keys && p.wallet != 0
          && (constraint != 0 ==> c.verifiers[v].supports))
  }

  // ------------------------------------------------------------------ the cache

  /** The cached owner was validated under the current revision, key and alpha revision. */
  predicate OwnerFresh(ca: Cache, c: Ctx, v: Address) {
    match Revision(c, v)
    case None => false
    case Some(rev) =>
      Get(ca.rev, v) == rev &&
      match VkHash(c, v)
      case None => false
      case Some(key) => key != 0 && Get(ca.vk, v) == key && Get(ca.alpha, v) == AlphaRevision(c.f, key)
  }

  /** The wallet a proofless sweep pays; None reverts. */
  function OwnerOf(ca: Cache, c: Ctx, v: Address): Option<Address> {
    if !Claimable(c, v) || Get(ca.owner, v) <= 0 || !OwnerFresh(ca, c, v) then None else Some(Get(ca.owner, v))
  }

  predicate PaysUntracked(ca: Cache, c: Ctx, v: Address) {
    v == c.f.defaultVerifier && OwnerFresh(ca, c, v) && Get(ca.latest, v) >= ca.untracked
  }

  /** A newer proof, or the first one, names the owner; the same wallet may renew a void cache. */
  function Installed(ca: Cache, c: Ctx, v: Address, wallet: Address, iat: nat, rev: nat): Cache {
    if iat > Get(ca.latest, v) || Get(ca.owner, v) == 0 then
      ca.(owner := ca.owner[v := wallet], latest := ca.latest[v := iat], rev := ca.rev[v := rev])
    else if !OwnerFresh(ca, c, v) && wallet == Get(ca.owner, v) then ca.(rev := ca.rev[v := rev])
    else ca
  }

  predicate Binds(ca: Cache, v: Address, wallet: Address, iat: nat) {
    wallet == Get(ca.owner, v) && iat == Get(ca.latest, v)
  }

  /** The verifier's key hash as read while binding, 0 when it is missing or invalid. */
  function KeyOf(c: Ctx, v: Address): Word {
    match VkHash(c, v) case Some(key) => key case None => 0
  }

  /** The record a successful application leaves in history. */
  function RecordOf(c: Ctx, v: Address, origin: Origin, wallet: Address, iat: nat, rev: nat, auth: Auth,
                    bound: bool): Acceptance
  {
    Acceptance(v, wallet, iat, origin, v == c.f.defaultVerifier, rev, KeyOf(c, v),
               AlphaRevision(c.f, KeyOf(c, v)), !IsAlpha(c.f, KeyOf(c, v)), auth, bound)
  }

  /** Key binding, the cross-default floor, and history. */
  function Noted(ca: Cache, r: Acceptance): Cache {
    ca.(vk := if r.bound then ca.vk[r.verifier := r.key] else ca.vk,
        alpha := if r.bound then ca.alpha[r.verifier := r.alphaRev] else ca.alpha,
        untracked := if r.iat > ca.untracked && r.asDefault then r.iat else ca.untracked,
        hist := ca.hist + [r])
  }

  /** Applying a verified (wallet, iat) under `v`; None reverts. */
  function Apply(ca: Cache, c: Ctx, v: Address, origin: Origin, wallet: Address, iat: nat, auth: Auth): Option<Cache> {
    if wallet == 0 || iat > c.now + FUTURE_SLACK || Revision(c, v).None? || iat < Get(ca.latest, v) then None
    else
      var rev := Revision(c, v).value;
      var ca1 := Installed(ca, c, v, wallet, iat, rev);
      var bound := Binds(ca1, v, wallet, iat);
      if bound && KeyOf(c, v) == 0 then None
      else Some(Noted(ca1, RecordOf(c, v, origin, wallet, iat, rev, auth, bound)))
  }

  // ------------------------------------------------------------------ the cache in terms of history

  /** Acceptance i is the earliest under `v` among those with the maximal issue time. */
  ghost predicate IsBest(h: seq<Acceptance>, v: Address, i: nat) {
    && i < |h| && h[i].verifier == v
    && (forall j :: 0 <= j < |h| && h[j].verifier == v ==> h[j].iat <= h[i].iat)
    && (forall j :: 0 <= j < i && h[j].verifier == v ==> h[j].iat < h[i].iat)
  }

  ghost predicate NoneUnder(h: seq<Acceptance>, v: Address) {
    forall j :: 0 <= j < |h| ==> h[j].verifier != v
  }

  /** The recorded owner and floor are those of the best acceptance, or zero when there is none. */
  ghost predicate Refines(ca: Cache, v: Address) {
    (NoneUnder(ca.hist, v) && Get(ca.owner, v) == 0 && Get(ca.latest, v) == 0)
    || exists i: nat ::
        IsBest(ca.hist, v, i) && Get(ca.owner, v) == ca.hist[i].wallet && Get(ca.latest, v) == ca.hist[i].iat
  }

  /** The cross-default floor is the newest issue time accepted through whoever was default then. */
  ghost predicate IsDefaultFloor(h: seq<Acceptance>, t: nat) {
    && (forall j :: 0 <= j < |h| && h[j].asDefault ==> h[j].iat <= t)
    && (t == 0 || exists j :: 0 <= j < |h| && h[j].asDefault && h[j].iat == t)
  }

  /** Acceptance i was the last to validate the cache under `v`, and the cache is as it left it. */
  ghost predicate Validated(ca: Cache, v: Address, i: nat) {
    && i < |ca.hist|
    && (forall j :: i < j < |ca.hist| && ca.hist[j].verifier == v ==> !ca.hist[j].bound)
    && var r := ca.hist[i];
       && r.verifier == v && r.bound && r.wallet == Get(ca.owner, v) && r.iat == Get(ca.latest, v)
       && r.key == Get(ca.vk, v) && r.alphaRev == Get(ca.alpha, v) && r.rev == Get(ca.rev, v)
  }

  ghost predicate Binding(ca: Cache, v: Address) {
    Get(ca.vk, v) == 0 || exists i: nat :: Validated(ca, v, i)
  }

  /** What stays true of an accepted proof, whatever happens later. */
  ghost predicate RecordHolds(r: Acceptance, c: Ctx) {
    && r.wallet != 0
    && r.iat <= c.now + FUTURE_SLACK
    && r.alphaRev <= AlphaRevision(c.f, r.key)
    && (r.released && r.alphaRev == AlphaRevision(c.f, r.key) ==> !IsAlpha(c.f, r.key))
    && r.verifier in c.verifiers
    && (c.verifiers[r.verifier].Pvium? ==>
          && IsPvium(c, r.verifier)
          && var keys := KeysOf(c, r.verifier);
             r.rev <= keys.revision && (r.rev == keys.revision ==> r.origin.signer in keys.keys))
  }

  /** Attested or accepted under a released key; each attestation nonce once per contract that spends it. */
  ghost predicate Authorised(h: seq<Acceptance>, used: set<nat>, proxyUsed: set<nat>) {
    && (forall i :: 0 <= i < |h| ==> h[i].released || !h[i].auth.Unattested?)
    && (forall i :: 0 <= i < |h| && h[i].auth.VaultNonce? ==> h[i].auth.nonce in used)
    && (forall i :: 0 <= i < |h| && h[i].auth.ProxyNonce? ==> h[i].auth.nonce in proxyUsed)
    && (forall i, j :: 0 <= i < j < |h| && !h[i].auth.Unattested? ==> h[i].auth != h[j].auth)
  }

  ghost predicate Shape(ca: Cache) {
    && (forall v :: Refines(ca, v))
    && (forall v :: Binding(ca, v))
    && IsDefaultFloor(ca.hist, ca.untracked)
  }

  ghost predicate Records(ca: Cache, c: Ctx) {
    forall i :: 0 <= i < |ca.hist| ==> RecordHolds(ca.hist[i], c)
  }

  ghost predicate CacheInv(ca: Cache, c: Ctx) {
    Shape(ca) && Records(ca, c)
  }

  // ------------------------------------------------------------------ how the outside may evolve

  predicate SameVerifier(a: Verifier, b: Verifier) {
    a.Pvium? == b.Pvium? && (a.Pvium? ==> a.identity == b.identity)
  }

  /** While the revision stands still keys are only added. */
  predicate KeysLater(k: KeyState, k': KeyState) {
    k.revision <= k'.revision && (k.revision == k'.revision ==> k.keys <= k'.keys)
  }

  /** Time, epochs and revisions go forward; a verifier's kind and identity are fixed; key sets follow their rules. */
  ghost predicate Later(c: Ctx, c': Ctx) {
    && c.now <= c'.now && c.f.owner == c'.f.owner && c.f.epoch <= c'.f.epoch
    && (forall vk :: AlphaRevision(c.f, vk) <= AlphaRevision(c'.f, vk))
    && (forall vk :: AlphaRevision(c.f, vk) == AlphaRevision(c'.f, vk) && !IsAlpha(c.f, vk) ==> !IsAlpha(c'.f, vk))
    && (forall v :: v in c.verifiers ==> v in c'.verifiers && SameVerifier(c.verifiers[v], c'.verifiers[v]))
    && (forall i :: i in c.identities ==> i in c'.identities && KeysLater(c.identities[i], c'.identities[i]))
  }

  lemma RecordsLast(ca: Cache, c: Ctx, c': Ctx)
    requires Records(ca, c) && Later(c, c')
    ensures Records(ca, c')
  {
    forall i | 0 <= i < |ca.hist|
      ensures RecordHolds(ca.hist[i], c')
    {
      assert RecordHolds(ca.hist[i], c);
      assert AlphaRevision(c.f, ca.hist[i].key) <= AlphaRevision(c'.f, ca.hist[i].key);
    }
  }

  // ------------------------------------------------------------------ applying a proof

  ghost predicate SameEntry(ca: Cache, ca': Cache, u: Address) {
    && Get(ca'.owner, u) == Get(ca.owner, u) && Get(ca'.latest, u) == Get(ca.latest, u)
    && Get(ca'.rev, u) == Get(ca.rev, u)
    && Get(ca'.vk, u) == Get(ca.vk, u) && Get(ca'.alpha, u) == Get(ca.alpha, u)
  }

  /** The effect of accepting `r`, without the branches that produce it. */
  ghost predicate Accepted(ca: Cache, c: Ctx, r: Acceptance, ca': Cache) {
    var v := r.verifier;
    && ca'.hist == ca.hist + [r]
    && r.wallet != 0 && Get(ca.latest, v) <= r.iat
    && ca'.untracked == (if r.asDefault && r.iat > ca.untracked then r.iat else ca.untracked)
    && (forall u :: u != v ==> SameEntry(ca, ca', u))
    && (if r.iat > Get(ca.latest, v) || Get(ca.owner, v) == 0
        then Get(ca'.owner, v) == r.wallet && Get(ca'.latest, v) == r.iat
        else Get(ca'.owner, v) == Get(ca.owner, v) && Get(ca'.latest, v) == Get(ca.latest, v))
    && (r.bound <==> r.wallet == Get(ca'.owner, v) && r.iat == Get(ca'.latest, v))
    && (if r.bound
        then r.key != 0 && Get(ca'.vk, v) == r.key && Get(ca'.alpha, v) == r.alphaRev && Get(ca'.rev, v) == r.rev
        else
          && Get(ca'.vk, v) == Get(ca.vk, v) && Get(ca'.alpha, v) == Get(ca.alpha, v)
          && Get(ca'.rev, v) == Get(ca.rev, v))
  }

  lemma ApplyAccepts(ca: Cache, c: Ctx, v: Address, origin: Origin, wallet: Address, iat: nat, auth: Auth)
    requires Apply(ca, c, v, origin, wallet, iat, auth).Some?
    ensures var ca' := Apply(ca, c, v, origin, wallet, iat, auth).value;
            && Revision(c, v).Some? && iat <= c.now + FUTURE_SLACK && |ca'.hist| == |ca.hist| + 1
            && var r := ca'.hist[|ca.hist|];
               r == RecordOf(c, v, origin, wallet, iat, Revision(c, v).value, auth, r.bound) && Accepted(ca, c, r, ca')
  {
    hide OwnerFresh, RecordOf, IsAlpha, AlphaRevision, VkHash, Revision, Accepted;
    var rev := Revision(c, v).value;
    var ca1 := Installed(ca, c, v, wallet, iat, rev);
    RecordFields(c, v, origin, wallet, iat, rev, auth, Binds(ca1, v, wallet, iat));
    NotedAccepts(ca, c, ca1, RecordOf(c, v, origin, wallet, iat, rev, auth, Binds(ca1, v, wallet, iat)));
  }

  lemma RecordFields(c: Ctx, v: Address, origin: Origin, wallet: Address, iat: nat, rev: nat, auth: Auth, bound: bool)
    ensures var r := RecordOf(c, v, origin, wallet, iat, rev, auth, bound);
            r.verifier == v && r.wallet == wallet && r.iat == iat && r.rev == rev && r.bound == bound
              && r.key == KeyOf(c, v)
  {
  }

  /** Installing leaves every other verifier's entry alone, and so does noting. */
  lemma InstalledElsewhere(ca: Cache, c: Ctx, r: Acceptance, u: Address)
    requires u != r.verifier
    ensures SameEntry(ca, Installed(ca, c, r.verifier, r.wallet, r.iat, r.rev), u)
  {
    hide OwnerFresh;
  }

  lemma NotedElsewhere(ca: Cache, ca1: Cache, r: Acceptance, u: Address)
    requires u != r.verifier && SameEntry(ca, ca1, u)
    ensures SameEntry(ca, Noted(ca1, r), u)
  {
  }

  /** What installing does to the verifier's own entry. */
  lemma InstalledEntry(ca: Cache, c: Ctx, r: Acceptance)
    requires Revision(c, r.verifier).Some? && r.rev == Revision(c, r.verifier).value
    ensures var v, ca1 := r.verifier, Installed(ca, c, r.verifier, r.wallet, r.iat, r.rev);
            && ca1 == ca.(owner := ca1.owner, latest := ca1.latest, rev := ca1.rev)
            && (if r.iat > Get(ca.latest, v) || Get(ca.owner, v) == 0
                then Get(ca1.owner, v) == r.wallet && Get(ca1.latest, v) == r.iat && Get(ca1.rev, v) == r.rev
                else Get(ca1.owner, v) == Get(ca.owner, v) && Get(ca1.latest, v) == Get(ca.latest, v)
                     && Get(ca1.rev, v) == if r.wallet == Get(ca.owner, v) then r.rev else Get(ca.rev, v))
  {
    hide OwnerFresh, Revision;
    if OwnerFresh(ca, c, r.verifier) {
      FreshRevision(ca, c, r.verifier);
    }
  }

  lemma NotedAccepts(ca: Cache, c: Ctx, ca1: Cache, r: Acceptance)
    requires Revision(c, r.verifier).Some? && r.rev == Revision(c, r.verifier).value
    requires ca1 == Installed(ca, c, r.verifier, r.wallet, r.iat, r.rev)
    requires r.bound == Binds(ca1, r.verifier, r.wallet, r.iat) && (r.bound ==> r.key != 0)
    requires r.wallet != 0 && r.iat >= Get(ca.latest, r.verifier)
    ensures Accepted(ca, c, r, Noted(ca1, r))
  {
    hide Installed, SameEntry, Revision;
    InstalledEntry(ca, c, r);
    forall u | u != r.verifier
      ensures SameEntry(ca, Noted(ca1, r), u)
    {
      InstalledElsewhere(ca, c, r, u);
      NotedElsewhere(ca, ca1, r, u);
    }
  }

  lemma FreshRevision(ca: Cache, c: Ctx, v: Address)
    requires OwnerFresh(ca, c, v)
    ensures Revision(c, v).Some? && Get(ca.rev, v) == Revision(c, v).value
  {
  }

  /** Under other verifiers nothing changes. */
  lemma AcceptedElsewhere(ca: Cache, c: Ctx, r: Acceptance, ca': Cache, u: Address)
    requires Refines(ca, u) && Binding(ca, u) && u != r.verifier && Accepted(ca, c, r, ca')
    ensures Refines(ca', u) && Binding(ca', u)
  {
    assert SameEntry(ca, ca', u);
    if !NoneUnder(ca.hist, u) {
      var i: nat :| IsBest(ca.hist, u, i) && Get(ca.owner, u) == ca.hist[i].wallet
        && Get(ca.latest, u) == ca.hist[i].iat;
      assert IsBest(ca'.hist, u, i);
    }
    if Get(ca.vk, u) != 0 {
      var i: nat :| Validated(ca, u, i);
      assert Validated(ca', u, i);
    }
  }

  lemma AcceptedRefines(ca: Cache, c: Ctx, r: Acceptance, ca': Cache)
    requires Refines(ca, r.verifier) && Accepted(ca, c, r, ca')
    requires forall i :: 0 <= i < |ca.hist| ==> ca.hist[i].wallet != 0
    ensures Refines(ca', r.verifier)
  {
    var v, n := r.verifier, |ca.hist|;
    if NoneUnder(ca.hist, v) {
      assert IsBest(ca'.hist, v, n);
    } else {
      var i: nat :| IsBest(ca.hist, v, i) && Get(ca.owner, v) == ca.hist[i].wallet
        && Get(ca.latest, v) == ca.hist[i].iat;
      assert IsBest(ca'.hist, v, if r.iat > Get(ca.latest, v) then n else i);
    }
  }

  lemma AcceptedBinds(ca: Cache, c: Ctx, r: Acceptance, ca': Cache)
    requires Refines(ca, r.verifier) && Binding(ca, r.verifier) && Accepted(ca, c, r, ca')
    requires forall i :: 0 <= i < |ca.hist| ==> ca.hist[i].wallet != 0
    ensures Binding(ca', r.verifier)
  {
    var v := r.verifier;
    if r.bound {
      assert Validated(ca', v, |ca.hist|);
    } else if Get(ca.vk, v) != 0 {
      var i: nat :| Validated(ca, v, i);
      assert Validated(ca', v, i);
    }
  }

  lemma AcceptedFloor(ca: Cache, c: Ctx, r: Acceptance, ca': Cache)
    requires IsDefaultFloor(ca.hist, ca.untracked) && Accepted(ca, c, r, ca')
    ensures IsDefaultFloor(ca'.hist, ca'.untracked)
  {
    assert forall j :: 0 <= j < |ca.hist| ==> ca'.hist[j] == ca.hist[j];
    assert ca'.hist[|ca.hist|] == r;
  }

  lemma AcceptedShape(ca: Cache, c: Ctx, r: Acceptance, ca': Cache)
    requires Shape(ca) && Accepted(ca, c, r, ca')
    requires forall i :: 0 <= i < |ca.hist| ==> ca.hist[i].wallet != 0
    ensures Shape(ca')
  {
    hide Accepted, IsDefaultFloor;
    AcceptedFloor(ca, c, r, ca');
    forall u
      ensures Refines(ca', u)
      ensures Binding(ca', u)
    {
      assert Refines(ca, u);
      assert Binding(ca, u);
      if u == r.verifier {
        AcceptedRefines(ca, c, r, ca');
        AcceptedBinds(ca, c, r, ca');
      } else {
        AcceptedElsewhere(ca, c, r, ca', u);
      }
    }
  }

  /** A successful application keeps the cache an exact summary of history. */
  lemma ApplyInv(ca: Cache, c: Ctx, v: Address, origin: Origin, wallet: Address, iat: nat, auth: Auth)
    requires CacheInv(ca, c)
    requires v in c.verifiers && (c.verifiers[v].Pvium? ==> IsPvium(c, v) && origin.signer in KeysOf(c, v).keys)
    requires Apply(ca, c, v, origin, wallet, iat, auth).Some?
    ensures CacheInv(Apply(ca, c, v, origin, wallet, iat, auth).value, c)
  {
    hide Apply, Shape;
    var ca' := Apply(ca, c, v, origin, wallet, iat, auth).value;
    ApplyAccepts(ca, c, v, origin, wallet, iat, auth);
    var r := ca'.hist[|ca.hist|];
    forall i | 0 <= i < |ca.hist|
      ensures ca.hist[i].wallet != 0 && ca'.hist[i] == ca.hist[i] && RecordHolds(ca'.hist[i], c)
    {
      assert RecordHolds(ca.hist[i], c);
    }
    AcceptedShape(ca, c, r, ca');
    assert RecordHolds(r, c);
  }

  // ------------------------------------------------------------------ what the invariant says

  /** What was accepted is what would be read now: revision, key hash and alpha revision. */
  predicate StillCurrent(r: Acceptance, c: Ctx) {
    && r.key != 0 && Revision(c, r.verifier) == Some(r.rev) && VkHash(c, r.verifier) == Some(r.key)
    && r.alphaRev == AlphaRevision(c.f, r.key)
  }

  /** The cache is fresh exactly when the proof that last validated it was accepted under what would be read now. */
  lemma FreshExactlyWhen(ca: Cache, c: Ctx, v: Address)
    requires CacheInv(ca, c)
    ensures OwnerFresh(ca, c, v) <==> exists i: nat :: Validated(ca, v, i) && StillCurrent(ca.hist[i], c)
  {
    hide Shape, Records;
    if OwnerFresh(ca, c, v) {
      BindingOf(ca, c, v);
      var i: nat :| Validated(ca, v, i);
      assert StillCurrent(ca.hist[i], c);
    }
  }

  /** The verifier is the default or allowed, and the proof that last validated its cache is still current. */
  ghost predicate Payable(ca: Cache, c: Ctx, v: Address) {
    && (v == c.f.defaultVerifier || v in c.allowed)
    && exists i: nat :: Validated(ca, v, i) && StillCurrent(ca.hist[i], c)
  }

  /** A proofless sweep has a payee exactly then, and the payee is the wallet of that proof. */
  lemma PayableExactlyWhen(ca: Cache, c: Ctx, v: Address)
    requires CacheInv(ca, c)
    ensures OwnerOf(ca, c, v).Some? <==> Payable(ca, c, v)
    ensures forall i: nat :: Validated(ca, v, i) && OwnerOf(ca, c, v).Some?
                             ==> ca.hist[i].wallet == OwnerOf(ca, c, v).value
  {
    hide CacheInv, OwnerFresh, StillCurrent;
    FreshExactlyWhen(ca, c, v);
    if OwnerFresh(ca, c, v) {
      FreshHasOwner(ca, c, v);
    }
  }

  lemma BindingOf(ca: Cache, c: Ctx, v: Address)
    requires CacheInv(ca, c)
    ensures Binding(ca, v) && Refines(ca, v)
  {
  }

  /** A fresh cache always names an owner. */
  lemma FreshHasOwner(ca: Cache, c: Ctx, v: Address)
    requires CacheInv(ca, c) && OwnerFresh(ca, c, v)
    ensures Get(ca.owner, v) > 0
  {
    assert Binding(ca, v);
    var i: nat :| Validated(ca, v, i);
    assert RecordHolds(ca.hist[i], c);
  }

  /** After a proof is applied the cache is fresh exactly when it was before or the proof names the owner. */
  lemma FreshnessAfterApply(ca: Cache, c: Ctx, v: Address, origin: Origin, wallet: Address, iat: nat, auth: Auth)
    requires CacheInv(ca, c)
    requires Apply(ca, c, v, origin, wallet, iat, auth).Some?
    ensures var ca' := Apply(ca, c, v, origin, wallet, iat, auth).value;
            OwnerFresh(ca', c, v) <==> OwnerFresh(ca, c, v) || wallet == Get(ca'.owner, v)
  {
    assert Refines(ca, v);
    if OwnerFresh(ca, c, v) {
      FreshHasOwner(ca, c, v);
    }
  }

  /**
   Alpha safety: while the current key is in alpha, a usable cache was last validated by a step that
   spent an attestation nonce, for exactly the recorded wallet and time.
   */
  lemma AlphaFreshMeansAttested(ca: Cache, c: Ctx, used: set<nat>, proxyUsed: set<nat>, v: Address)
    requires CacheInv(ca, c) && Authorised(ca.hist, used, proxyUsed)
    requires OwnerFresh(ca, c, v) && IsAlpha(c.f, VkHash(c, v).value)
    ensures exists i: nat :: Validated(ca, v, i) && !ca.hist[i].auth.Unattested?
  {
    assert Binding(ca, v);
    var i: nat :| Validated(ca, v, i);
    assert RecordHolds(ca.hist[i], c);
  }

  /**
   Revocation: a usable cache under a PviumVerifier rests on an accepted proof for exactly the recorded
   wallet and time whose signing key is accepted now, and was accepted under the current revision.
   */
  lemma FreshMeansSignerStands(ca: Cache, c: Ctx, v: Address)
    requires CacheInv(ca, c) && OwnerFresh(ca, c, v) && c.verifiers[v].Pvium?
    ensures IsPvium(c, v)
    ensures exists i: nat :: Validated(ca, v, i) && ca.hist[i].rev == KeysOf(c, v).revision
                             && ca.hist[i].origin.signer in KeysOf(c, v).keys
  {
    assert Binding(ca, v);
    var i: nat :| Validated(ca, v, i);
    assert RecordHolds(ca.hist[i], c);
  }

  /** The outside once an identity contract's key set is `keys`. */
  function WithKeys(c: Ctx, identity: Address, keys: KeyState): Ctx {
    c.(identities := c.identities[identity := keys])
  }

  /** Removing a signer key voids the caches under all verifiers that read that identity contract. */
  lemma RemovalVoidsCache(ca: Cache, c: Ctx, identity: Address, caller: Address, key: Key)
    requires CacheInv(ca, c) && identity in c.identities
    requires KeyStep(c.identities[identity], Remove(caller, key), c.now).Some?
    ensures var c' := WithKeys(c, identity, KeyAfter(c.identities[identity], Remove(caller, key), c.now));
            forall v :: v in c.verifiers && c.verifiers[v].Pvium? && c.verifiers[v].identity == identity
              ==> !OwnerFresh(ca, c', v)
  {
    hide OnCurve, KeyStep;
    var c' := WithKeys(c, identity, KeyAfter(c.identities[identity], Remove(caller, key), c.now));
    RemovalMovesRevision(c.identities[identity], caller, key, c.now);
    forall v | v in c.verifiers && c.verifiers[v].Pvium? && c.verifiers[v].identity == identity
      ensures !OwnerFresh(ca, c', v)
    {
      assert Binding(ca, v);
      if Get(ca.vk, v) != 0 {
        var i: nat :| Validated(ca, v, i);
        assert RecordHolds(ca.hist[i], c);
      }
    }
  }

  lemma RemovalMovesRevision(s: KeyState, caller: Address, key: Key, now: nat)
    requires KeyStep(s, Remove(caller, key), now).Some?
    ensures KeyAfter(s, Remove(caller, key), now).revision == s.revision + 1
  {
  }

  /** Bounded lockout: no floor is ever more than fifteen minutes ahead of the clock. */
  lemma FloorsAreBounded(ca: Cache, c: Ctx, v: Address)
    requires CacheInv(ca, c)
    ensures 0 <= Get(ca.latest, v) <= c.now + FUTURE_SLACK
    ensures ca.untracked <= c.now + FUTURE_SLACK
  {
    assert forall i :: 0 <= i < |ca.hist| ==> RecordHolds(ca.hist[i], c);
    assert Refines(ca, v);
  }

  /**
   So a proof issued more than fifteen minutes after a state and presented once it is current is applied
   against every floor that state recorded, and its wallet becomes the owner.
   */
  lemma LateProofIsApplied(ca: Cache, c: Ctx, c': Ctx, v: Address, origin: Origin, wallet: Address, iat: nat,
                           auth: Auth)
    requires CacheInv(ca, c) && wallet != 0
    requires iat > c.now + FUTURE_SLACK && iat <= c'.now + FUTURE_SLACK
    requires Revision(c', v).Some? && VkHash(c', v).Some? && VkHash(c', v).value != 0
    ensures Apply(ca, c', v, origin, wallet, iat, auth).Some?
    ensures var ca' := Apply(ca, c', v, origin, wallet, iat, auth).value;
            Get(ca'.owner, v) == wallet && Get(ca'.latest, v) == iat && OwnerFresh(ca', c', v)
  {
    FloorsAreBounded(ca, c, v);
  }
}
