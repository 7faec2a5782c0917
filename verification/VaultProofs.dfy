/** Every vault operation keeps the vault's invariant and can afford the payment it sends. */
module VaultProofs {
  import opened Types
  import opened KeySet
  import opened Factory
  import opened Books
  import opened Sweeps
  import opened OwnerCache
  import opened Vault

  /** With a balance covering what is held before, the rest covers it after the payment. */
  ghost predicate Affords(v: Vault, c: Ctx, o: Out)
    requires o.Out?
  {
    forall t :: Get(c.bal, t) >= Held(v.k, t) ==>
                  Get(c.bal, t) - (if t == o.token then o.net else 0) >= Held(o.v.k, t)
  }

  // ------------------------------------------------------------------ payouts

  lemma PaidSumPushed(paid: seq<Payout>, p: Payout, t: Address, part: Part)
    ensures PaidSum(paid + [p], t, part) == PaidSum(paid, t, part) + PartOf(p, t, part)
  {
    assert (paid + [p])[..|paid|] == paid;
  }

  /** What a payout needs to keep the books of payouts in step with claims and fees. */
  ghost predicate Owing(v: Vault, t: Address, gross: nat, untracked: nat) {
    && untracked <= gross
    && (forall u :: PaidSum(v.paid, u, Gross) + (if u == t then gross - untracked else 0)
                    == Flow(v.k.log, u, Claims) + PaidSum(v.paid, u, Surplus))
    && (forall u :: PaidSum(v.paid, u, Fees) == Flow(v.k.log, u, FeesIn))
  }

  lemma AccrueFlows(k: Books, ver: Address, t: Address, fee: nat, u: Address)
    ensures Flow(Accrue(k, ver, t, fee).log, u, Claims) == Flow(k.log, u, Claims)
    ensures Flow(Accrue(k, ver, t, fee).log, u, FeesIn) == Flow(k.log, u, FeesIn) + (if u == t then fee else 0)
    ensures Held(Accrue(k, ver, t, fee), u) == Held(k, u) + (if u == t then fee else 0)
  {
    if fee != 0 {
      FlowPushed(k.log, FeeAccrued(ver, t, fee), u, Claims);
      FlowPushed(k.log, FeeAccrued(ver, t, fee), u, FeesIn);
    }
  }

  lemma PayAddsUp(v: Vault, c: Ctx, ver: Address, constraint: Word, t: Address, to: Address, gross: nat, fee: nat,
                  untracked: nat)
    requires Owing(v, t, gross, untracked) && fee <= gross
    ensures PaidAddsUp(Pay(v, c, ver, constraint, t, to, gross, fee, untracked).v)
  {
    hide Accrue, Flow, PaidSum;
    var v' := Pay(v, c, ver, constraint, t, to, gross, fee, untracked).v;
    var p := v'.paid[|v.paid|];
    forall u
      ensures PaidSum(v'.paid, u, Gross) == Flow(v'.k.log, u, Claims) + PaidSum(v'.paid, u, Surplus)
      ensures PaidSum(v'.paid, u, Fees) == Flow(v'.k.log, u, FeesIn)
    {
      PaidSumPushed(v.paid, p, u, Gross);
      PaidSumPushed(v.paid, p, u, Fees);
      PaidSumPushed(v.paid, p, u, Surplus);
      AccrueFlows(v.k, ver, t, fee, u);
      assert PaidSum(v.paid, u, Gross) + (if u == t then gross - untracked else 0)
             == Flow(v.k.log, u, Claims) + PaidSum(v.paid, u, Surplus);
      assert PaidSum(v.paid, u, Fees) == Flow(v.k.log, u, FeesIn);
    }
  }

  /** The invariant without the sums of payouts, which lag while a sweep is under way. */
  ghost predicate Midway(v: Vault, c: Ctx, proxyUsed: set<nat>) {
    BooksInv(v.k) && CacheInv(v.ca, c) && Authorised(v.ca.hist, v.nonces, proxyUsed) && PaidInv(v)
    && OwnIdentity(v)
  }

  lemma PayInv(v: Vault, c: Ctx, proxyUsed: set<nat>, ver: Address, constraint: Word, t: Address, to: Address,
               gross: nat, fee: nat, untracked: nat)
    requires Midway(v, c, proxyUsed) && Owing(v, t, gross, untracked) && fee * 100 <= gross
    requires PaidRight(Payout(ver, constraint, t, to, gross, fee, untracked, ver == c.f.defaultVerifier, |v.ca.hist|,
                              Quote(c, ver, t), |v.k.log|),
                       v.ca.hist)
    ensures VaultInv(Pay(v, c, ver, constraint, t, to, gross, fee, untracked).v, c, proxyUsed)
  {
    hide BooksInv, CacheInv, Authorised, PaidRight, Owing, PaidAddsUp;
    PayAddsUp(v, c, ver, constraint, t, to, gross, fee, untracked);
    AccrueInv(v.k, ver, t, fee);
  }

  // ------------------------------------------------------------------ proofs

  /** A spent vault nonce is new, so authorisation stays injective when the record is appended. */
  lemma AuthorisedGrows(h: seq<Acceptance>, used: set<nat>, proxyUsed: set<nat>, used': set<nat>, proxyUsed': set<nat>,
                        r: Acceptance)
    requires Authorised(h, used, proxyUsed) && used <= used' && proxyUsed <= proxyUsed'
    requires r.auth.Unattested? ==> r.released
    requires r.auth.VaultNonce? ==> r.auth.nonce !in used && r.auth.nonce in used'
    requires r.auth.ProxyNonce? ==> r.auth.nonce !in proxyUsed && r.auth.nonce in proxyUsed'
    ensures Authorised(h + [r], used', proxyUsed')
  {
    var h' := h + [r];
    forall i | 0 <= i < |h|
      ensures h'[i] == h[i] && (!h[i].auth.Unattested? ==> h[i].auth != r.auth)
    {
    }
  }

  /** Later acceptances do not disturb what past payouts obeyed. */
  lemma PaidRightLasts(p: Payout, h: seq<Acceptance>, r: Acceptance)
    requires PaidRight(p, h)
    ensures PaidRight(p, h + [r])
  {
    assert (h + [r])[..p.seen] == h[..p.seen];
    if p.constraint == 0 {
      var i: nat :| PaidBest(p, h, i);
      assert PaidBest(p, h + [r], i);
    }
  }

  lemma AcceptedAppends(ca: Cache, c: Ctx, r: Acceptance, ca': Cache)
    requires Accepted(ca, c, r, ca')
    ensures ca'.hist == ca.hist + [r]
  {
  }

  lemma PaymentsApart(v: Vault, v': Vault)
    requires PaidAddsUp(v) && v'.paid == v.paid && v'.k == v.k
    ensures PaidAddsUp(v')
  {
  }

  /** Accepting a proof keeps the vault's invariant, whoever authorised it. */
  lemma PresentInv(v: Vault, c: Ctx, proxyUsed: set<nat>, proxyUsed': set<nat>, used: set<nat>, ver: Address,
                   constraint: Word, p: Proof, auth: Auth)
    requires VaultInv(v.(nonces := used), c, proxyUsed) && used <= v.nonces && proxyUsed <= proxyUsed'
    requires VkHash(c, ver).Some? && (auth.Unattested? ==> !IsAlpha(c.f, VkHash(c, ver).value))
    requires auth.VaultNonce? ==> auth.nonce !in used && auth.nonce in v.nonces
    requires auth.ProxyNonce? ==> auth.nonce !in proxyUsed && auth.nonce in proxyUsed'
    requires Present(v, c, ver, constraint, p, auth).Some?
    ensures VaultInv(Present(v, c, ver, constraint, p, auth).value, c, proxyUsed')
  {
    hide Apply, BooksInv, CacheInv, Authorised, PaidRight, Accepted, PaidAddsUp;
    var v' := Present(v, c, ver, constraint, p, auth).value;
    ApplyInv(v.ca, c, ver, p.origin, p.wallet, p.iat, auth);
    ApplyAccepts(v.ca, c, ver, p.origin, p.wallet, p.iat, auth);
    var r := v'.ca.hist[|v.ca.hist|];
    AcceptedAppends(v.ca, c, r, v'.ca);
    AuthorisedGrows(v.ca.hist, used, proxyUsed, v.nonces, proxyUsed', r);
    forall i | 0 <= i < |v.paid|
      ensures PaidRight(v.paid[i], v'.ca.hist)
    {
      PaidRightLasts(v.paid[i], v.ca.hist, r);
    }
    PaymentsApart(v.(nonces := used), v');
  }

  lemma ProveInv(v: Vault, c: Ctx, proxyUsed: set<nat>, ver: Address, constraint: Word, p: Proof,
                 att: AlphaAttestation)
    requires VaultInv(v, c, proxyUsed) && Prove(v, c, ver, constraint, p, att).Some?
    ensures VaultInv(Prove(v, c, ver, constraint, p, att).value, c, proxyUsed)
  {
    hide Present, VaultInv, VerifyAlpha;
    var (v1, auth) := Authorise(v, c, ver, att).value;
    assert v1.(nonces := v.nonces) == v;
    PresentInv(v1, c, proxyUsed, proxyUsed, v.nonces, ver, constraint, p, auth);
  }

  /** A successful proof is the newest entry of history, and touches no money. */
  lemma ProveAppends(v: Vault, c: Ctx, ver: Address, constraint: Word, p: Proof, att: AlphaAttestation)
    requires Prove(v, c, ver, constraint, p, att).Some?
    ensures var v' := Prove(v, c, ver, constraint, p, att).value;
            && v'.k == v.k && v'.paid == v.paid && v'.locked == v.locked && v'.salt == v.salt
            && |v'.ca.hist| == |v.ca.hist| + 1
            && v.ca.hist <= v'.ca.hist
            && v'.ca.hist[|v.ca.hist|].verifier == ver && v'.ca.hist[|v.ca.hist|].wallet == p.wallet
            && v'.ca.hist[|v.ca.hist|].origin == p.origin
            && (constraint != 0 ==> p.origin.evidence == constraint)
  {
    hide Apply, Accepted, VerifyAlpha;
    var (v1, auth) := Authorise(v, c, ver, att).value;
    ApplyAccepts(v1.ca, c, ver, p.origin, p.wallet, p.iat, auth);
    var v' := Present(v1, c, ver, constraint, p, auth).value;
    AcceptedAppends(v1.ca, c, v'.ca.hist[|v.ca.hist|], v'.ca);
  }

  // ------------------------------------------------------------------ default-bucket sweeps

  /** The wallet a default sweep pays is that of the best accepted proof, and untracked funds need the floor. */
  lemma OwnerIsBest(ca: Cache, c: Ctx, ver: Address, gross: nat, fee: nat, untracked: nat, t: Address,
                    rate: nat, events: nat)
    requires CacheInv(ca, c) && OwnerOf(ca, c, ver).Some? && fee * 100 <= gross && untracked <= gross
    requires untracked > 0 ==> PaysUntracked(ca, c, ver)
    ensures PaidRight(Payout(ver, 0, t, OwnerOf(ca, c, ver).value, gross, fee, untracked,
                             ver == c.f.defaultVerifier, |ca.hist|, rate, events), ca.hist)
  {
    hide OwnerFresh, Records, RecordHolds;
    var p := Payout(ver, 0, t, OwnerOf(ca, c, ver).value, gross, fee, untracked, ver == c.f.defaultVerifier, |ca.hist|,
                    rate, events);
    assert ca.hist[..p.seen] == ca.hist;
    assert Refines(ca, ver);
    var i: nat :| IsBest(ca.hist, ver, i) && Get(ca.owner, ver) == ca.hist[i].wallet
      && Get(ca.latest, ver) == ca.hist[i].iat;
    assert PaidBest(p, ca.hist, i);
  }

  /** The untracked fee is at most a hundredth, and untracked funds are exactly the surplus. */
  lemma LooseFacts(v: Vault, c: Ctx, ver: Address, t: Address)
    requires Loose(v, c, ver, t).Some? && LooseFee(c, ver, t, Loose(v, c, ver, t).value).Some?
    ensures var u := Loose(v, c, ver, t).value;
            && LooseFee(c, ver, t, u).value * 100 <= u
            && (u > 0 ==> PaysUntracked(v.ca, c, ver) && u == Get(c.bal, t) - Held(v.k, t))
  {
    hide OwnerFresh, Quote;
    var u := Loose(v, c, ver, t).value;
    QuoteCapped(c, ver, t, u);
  }

  lemma QuoteCapped(c: Ctx, ver: Address, t: Address, u: nat)
    ensures u * Quote(c, ver, t) / BPS * 100 <= u
  {
    TimesCapped(u, Quote(c, ver, t));
    FloorCapped(u * Quote(c, ver, t), u);
  }

  /** A sweep that took `w` from a bucket and adds surplus `u` is owed exactly that. */
  lemma TookOwes(v: Vault, w: Swept, b: Bucket, u: nat)
    requires Took(v.k, w, b) && PaidAddsUp(v)
    ensures Owing(v.(k := w.k), b.token, w.gross + u, u)
  {
    hide BooksInv;
    forall t
      ensures PaidSum(v.paid, t, Gross) + (if t == b.token then w.gross else 0)
              == Flow(w.k.log, t, Claims) + PaidSum(v.paid, t, Surplus)
      ensures PaidSum(v.paid, t, Fees) == Flow(w.k.log, t, FeesIn)
    {
      assert Flow(w.k.log, t, Claims) == Flow(v.k.log, t, Claims) + (if t == b.token then w.gross else 0);
      assert Flow(w.k.log, t, FeesIn) == Flow(v.k.log, t, FeesIn);
      assert PaidSum(v.paid, t, Gross) == Flow(v.k.log, t, Claims) + PaidSum(v.paid, t, Surplus);
    }
  }

  /** The money side of a sweep: what it took plus at most the surplus leaves; the fee stays held. */
  lemma TookAffords(v: Vault, c: Ctx, w: Swept, b: Bucket, ver: Address, to: Address, fee: nat, u: nat)
    requires Took(v.k, w, b) && fee <= w.gross + u
    requires u > 0 ==> u == Get(c.bal, b.token) - Held(v.k, b.token)
    ensures Affords(v, c, Pay(v.(k := w.k), c, ver, b.constraint, b.token, to, w.gross + u, fee, u))
  {
    hide BooksInv;
    forall t | Get(c.bal, t) >= Held(v.k, t)
      ensures Get(c.bal, t) - (if t == b.token then w.gross + u - fee else 0) >= Held(Accrue(w.k, ver, b.token, fee), t)
    {
      AccrueFlows(w.k, ver, b.token, fee, t);
      assert Get(w.k.tracked, t) == Get(v.k.tracked, t) - (if t == b.token then w.gross else 0);
    }
  }

  /** The cursor is no part of what a sweep took. */
  lemma CursorPageTook(k: Books, b: Bucket, limit: nat, to: Address)
    requires BooksInv(k)
    ensures var w := FromCursor(k, b, limit, to);
            BooksInv(w.k) && exists w0: Swept ::
                              Took(k, w0, b) && w == Swept(w0.k.(cursor := w.k.cursor), w0.gross, w0.fee, w0.count)
  {
    hide BooksInv, Took;
    FromCursorTakes(k, b, limit, to);
    var w := FromCursor(k, b, limit, to);
    var w0 := w.(k := w.k.(cursor := k.cursor));
    assert Took(k, w0, b);
  }

  lemma TookFee(k: Books, w: Swept, b: Bucket)
    requires Took(k, w, b)
    ensures w.fee * 100 <= w.gross
  {
  }

  lemma MidwayApart(v: Vault, c: Ctx, proxyUsed: set<nat>, k: Books)
    requires VaultInv(v, c, proxyUsed) && BooksInv(k)
    ensures Midway(v.(k := k), c, proxyUsed)
  {
  }

  /** One statement for every default-bucket sweep: what it took, plus eligible surplus, paid to the owner. */
  lemma DefaultPayout(v: Vault, c: Ctx, proxyUsed: set<nat>, ver: Address, t: Address, w0: Swept, w: Swept, u: nat,
                      uFee: nat)
    requires VaultInv(v, c, proxyUsed) && OwnerOf(v.ca, c, ver).Some?
    requires Took(v.k, w0, Bucket(ver, 0, t)) && BooksInv(w.k)
    requires w == Swept(w0.k.(cursor := w.k.cursor), w0.gross, w0.fee, w0.count)
    requires uFee * 100 <= u
    requires u > 0 ==> PaysUntracked(v.ca, c, ver) && u == Get(c.bal, t) - Held(v.k, t)
    ensures var o := Pay(v.(k := w.k), c, ver, 0, t, OwnerOf(v.ca, c, ver).value, w.gross + u, w.fee + uFee, u);
            o.Out? && VaultInv(o.v, c, proxyUsed) && Affords(v, c, o)
  {
    hide BooksInv, CacheInv, Authorised, PaidRight, OwnerFresh, PaidAddsUp, Owing, Affords, Took, Accrue, PaidInv,
         Midway;
    var b, to := Bucket(ver, 0, t), OwnerOf(v.ca, c, ver).value;
    TookFee(v.k, w0, b);
    MidwayApart(v, c, proxyUsed, w.k);
    OwnerIsBest(v.ca, c, ver, w.gross + u, w.fee + uFee, u, t, Quote(c, ver, t), |w.k.log|);
    TookOwes(v, w0, b, u);
    OwingApart(v.(k := w0.k), v.(k := w.k), t, w.gross + u, u);
    PayInv(v.(k := w.k), c, proxyUsed, ver, 0, t, to, w.gross + u, w.fee + uFee, u);
    TookAffords(v, c, w0, b, ver, to, w.fee + uFee, u);
    AffordsApart(v, c, ver, 0, t, to, w0, w, w.gross + u, w.fee + uFee, u);
  }

  lemma OwingApart(v: Vault, v': Vault, t: Address, gross: nat, u: nat)
    requires Owing(v, t, gross, u) && v'.paid == v.paid && v'.k.log == v.k.log
    ensures Owing(v', t, gross, u)
  {
  }

  lemma AffordsApart(v: Vault, c: Ctx, ver: Address, constraint: Word, t: Address, to: Address, w0: Swept, w: Swept,
                     gross: nat, fee: nat, u: nat)
    requires w == Swept(w0.k.(cursor := w.k.cursor), w0.gross, w0.fee, w0.count) && fee <= gross
    requires Affords(v, c, Pay(v.(k := w0.k), c, ver, constraint, t, to, gross, fee, u))
    ensures Affords(v, c, Pay(v.(k := w.k), c, ver, constraint, t, to, gross, fee, u))
  {
    forall a
      ensures Held(Accrue(w.k, ver, t, fee), a) == Held(Accrue(w0.k, ver, t, fee), a)
    {
      AccrueFlows(w.k, ver, t, fee, a);
      AccrueFlows(w0.k, ver, t, fee, a);
    }
  }

  lemma SweepDefaultInv(v: Vault, c: Ctx, proxyUsed: set<nat>, ver: Address, t: Address, limit: nat)
    requires VaultInv(v, c, proxyUsed) && SweepDefault(v, c, ver, t, limit).Out?
    ensures var o := SweepDefault(v, c, ver, t, limit); VaultInv(o.v, c, proxyUsed) && Affords(v, c, o)
  {
    hide BooksInv, CacheInv, Authorised, PaidInv, PaidAddsUp, OwnerFresh, Took, FromCursor, Pay, Loose, LooseFee;
    var b, to := Bucket(ver, 0, t), OwnerOf(v.ca, c, ver).value;
    CursorPageTook(v.k, b, limit, to);
    var w := FromCursor(v.k, b, limit, to);
    var w0: Swept :| Took(v.k, w0, b) && w == Swept(w0.k.(cursor := w.k.cursor), w0.gross, w0.fee, w0.count);
    LooseFacts(v, c, ver, t);
    var u := Loose(v, c, ver, t).value;
    DefaultPayout(v, c, proxyUsed, ver, t, w0, w, u, LooseFee(c, ver, t, u).value);
  }

  lemma SweepUntrackedInv(v: Vault, c: Ctx, proxyUsed: set<nat>, t: Address)
    requires VaultInv(v, c, proxyUsed) && SweepUntracked(v, c, t).Out?
    ensures var o := SweepUntracked(v, c, t); VaultInv(o.v, c, proxyUsed) && Affords(v, c, o)
  {
    hide BooksInv, CacheInv, Authorised, PaidInv, PaidAddsUp, OwnerFresh, Took, Pay, LooseFee;
    var ver := c.f.defaultVerifier;
    var w0 := Swept(v.k, 0, 0, 0);
    TookNothing(v.k, Bucket(ver, 0, t));
    LooseFacts(v, c, ver, t);
    var u := Loose(v, c, ver, t).value;
    DefaultPayout(v, c, proxyUsed, ver, t, w0, w0, u, LooseFee(c, ver, t, u).value);
    assert v.(k := v.k) == v;
  }

  lemma TookNothing(k: Books, b: Bucket)
    requires BooksInv(k)
    ensures Took(k, Swept(k, 0, 0, 0), b)
  {
  }

  lemma SweepDepositsInv(v: Vault, c: Ctx, proxyUsed: set<nat>, ver: Address, t: Address, ids: seq<nat>)
    requires VaultInv(v, c, proxyUsed) && SweepDeposits(v, c, ver, t, ids).Out?
    ensures var o := SweepDeposits(v, c, ver, t, ids); VaultInv(o.v, c, proxyUsed) && Affords(v, c, o)
  {
    hide BooksInv, CacheInv, Authorised, PaidInv, PaidAddsUp, OwnerFresh, Took, ByIds, Pay, Sweeps.Sweepable;
    var b, to := Bucket(ver, 0, t), OwnerOf(v.ca, c, ver).value;
    ByIdsTakes(v.k, b, ids, |ids|, to);
    var w := ByIds(v.k, b, ids, |ids|, to).value;
    TookBooks(v.k, w, b);
    DefaultPayout(v, c, proxyUsed, ver, t, w, w, 0, 0);
  }

  lemma TookBooks(k: Books, w: Swept, b: Bucket)
    requires Took(k, w, b)
    ensures BooksInv(w.k) && w.fee * 100 <= w.gross
  {
  }

  // ------------------------------------------------------------------ constrained sweeps

  /** A constrained payout goes to the wallet of the proof just accepted. */
  lemma BucketPayout(v: Vault, c: Ctx, proxyUsed: set<nat>, ver: Address, constraint: Word, t: Address,
                     wallet: Address, w0: Swept, w: Swept)
    requires VaultInv(v, c, proxyUsed) && constraint != 0
    requires |v.ca.hist| > 0 && v.ca.hist[|v.ca.hist| - 1].verifier == ver
             && v.ca.hist[|v.ca.hist| - 1].wallet == wallet
             && v.ca.hist[|v.ca.hist| - 1].origin.evidence == constraint
    requires Took(v.k, w0, Bucket(ver, constraint, t)) && BooksInv(w.k)
    requires w == Swept(w0.k.(cursor := w.k.cursor), w0.gross, w0.fee, w0.count)
    ensures var o := Pay(v.(k := w.k), c, ver, constraint, t, wallet, w.gross, w.fee, 0);
            o.Out? && VaultInv(o.v, c, proxyUsed) && Affords(v, c, o)
  {
    hide BooksInv, CacheInv, Authorised, PaidBest, PaidAddsUp, Owing, IsBest;
    var b := Bucket(ver, constraint, t);
    TookBooks(v.k, w0, b);
    TookOwes(v, w0, b, 0);
    OwingApart(v.(k := w0.k), v.(k := w.k), t, w.gross, 0);
    PayInv(v.(k := w.k), c, proxyUsed, ver, constraint, t, wallet, w.gross, w.fee, 0);
    TookAffords(v, c, w0, b, ver, wallet, w.fee, 0);
    AffordsApart(v, c, ver, constraint, t, wallet, w0, w, w.gross, w.fee, 0);
  }

  lemma SweepBucketInv(v: Vault, c: Ctx, proxyUsed: set<nat>, ver: Address, constraint: Word, t: Address, p: Proof,
                       limit: nat, att: AlphaAttestation)
    requires VaultInv(v, c, proxyUsed) && SweepBucket(v, c, ver, constraint, t, p, limit, att).Out?
    ensures var o := SweepBucket(v, c, ver, constraint, t, p, limit, att);
            VaultInv(o.v, c, proxyUsed) && Affords(v, c, o)
  {
    hide BooksInv, CacheInv, Authorised, PaidInv, PaidAddsUp, Took, FromCursor, Pay, Prove;
    ProveInv(v, c, proxyUsed, ver, constraint, p, att);
    ProveAppends(v, c, ver, constraint, p, att);
    var v1 := Prove(v, c, ver, constraint, p, att).value;
    var b := Bucket(ver, constraint, t);
    CursorPageTook(v1.k, b, limit, p.wallet);
    var w := FromCursor(v1.k, b, limit, p.wallet);
    var w0: Swept :| Took(v1.k, w0, b) && w == Swept(w0.k.(cursor := w.k.cursor), w0.gross, w0.fee, w0.count);
    BucketPayout(v1, c, proxyUsed, ver, constraint, t, p.wallet, w0, w);
  }

  lemma SweepBucketDepositsInv(v: Vault, c: Ctx, proxyUsed: set<nat>, ver: Address, constraint: Word, t: Address,
                               p: Proof, ids: seq<nat>, att: AlphaAttestation)
    requires VaultInv(v, c, proxyUsed) && SweepBucketDeposits(v, c, ver, constraint, t, p, ids, att).Out?
    ensures var o := SweepBucketDeposits(v, c, ver, constraint, t, p, ids, att);
            VaultInv(o.v, c, proxyUsed) && Affords(v, c, o)
  {
    hide BooksInv, CacheInv, Authorised, PaidInv, PaidAddsUp, Took, ByIds, Pay, Prove, Sweeps.Sweepable;
    ProveInv(v, c, proxyUsed, ver, constraint, p, att);
    ProveAppends(v, c, ver, constraint, p, att);
    var v1 := Prove(v, c, ver, constraint, p, att).value;
    var b := Bucket(ver, constraint, t);
    ByIdsTakes(v1.k, b, ids, |ids|, p.wallet);
    var w := ByIds(v1.k, b, ids, |ids|, p.wallet).value;
    TookBooks(v1.k, w, b);
    BucketPayout(v1, c, proxyUsed, ver, constraint, t, p.wallet, w, w);
  }

  lemma RefreshAndSweepInv(v: Vault, c: Ctx, proxyUsed: set<nat>, ver: Address, p: Proof, t: Address, limit: nat,
                           att: AlphaAttestation)
    requires VaultInv(v, c, proxyUsed) && RefreshAndSweep(v, c, ver, p, t, limit, att).Out?
    ensures var o := RefreshAndSweep(v, c, ver, p, t, limit, att);
            VaultInv(o.v, c, proxyUsed) && Affords(v, c, o)
  {
    hide VaultInv, Prove, SweepDefault;
    ProveInv(v, c, proxyUsed, ver, 0, p, att);
    ProveAppends(v, c, ver, 0, p, att);
    SweepDefaultInv(Prove(v, c, ver, 0, p, att).value, c, proxyUsed, ver, t, limit);
  }

  // ------------------------------------------------------------------ refunds, funding, fees

  lemma RefundDepositInv(v: Vault, c: Ctx, proxyUsed: set<nat>, caller: Address, id: nat)
    requires VaultInv(v, c, proxyUsed) && RefundDeposit(v, c, caller, id).Out?
    ensures var o := RefundDeposit(v, c, caller, id); VaultInv(o.v, c, proxyUsed) && Affords(v, c, o)
  {
    hide BooksInv, CacheInv, Authorised, PaidRight;
    RefundInv(v.k, id);
    var d := v.k.deposits[id];
    var e := Refunded(id, d.funder, d.token, d.amount);
    forall t
      ensures Flow(v.k.log + [e], t, Claims) == Flow(v.k.log, t, Claims)
      ensures Flow(v.k.log + [e], t, FeesIn) == Flow(v.k.log, t, FeesIn)
    {
      FlowPushed(v.k.log, e, t, Claims);
      FlowPushed(v.k.log, e, t, FeesIn);
    }
  }

  lemma FundInv(v: Vault, c0: Ctx, c: Ctx, proxyUsed: set<nat>, funder: Address, ver: Address, t: Address,
                credited: nat, amount: nat, constraint: Word, window: nat)
    requires VaultInv(v, c, proxyUsed) && MayFund(v, c0, funder, ver, amount, constraint, window)
    requires 0 < credited <= MAX_U128
    ensures var v' := Fund(v, c, funder, ver, t, credited, constraint, window);
            && VaultInv(v', c, proxyUsed)
            && forall u :: Held(v'.k, u) == Held(v.k, u) + (if u == t then credited else 0)
  {
    hide BooksInv, CacheInv, Authorised, PaidRight;
    var d := Deposit(funder, c.now, false, t, window, ver, Quote(c, ver, t), credited, constraint);
    RecordInv(v.k, d);
    LedgerPushed(v.k, Funded(|v.k.deposits|, funder, t, credited));
  }

  /** Book a fee distribution of `amount`. */
  lemma DistributedInv(v: Vault, c: Ctx, proxyUsed: set<nat>, ver: Address, t: Address, amount: nat)
    requires VaultInv(v, c, proxyUsed) && amount <= Get(v.k.feesOwed, (ver, t))
    ensures var v' := v.(k := Distribute(v.k, ver, t, amount));
            && VaultInv(v', c, proxyUsed)
            && forall u :: Held(v'.k, u) == Held(v.k, u) - (if u == t then amount else 0)
  {
    hide BooksInv, CacheInv, Authorised, PaidRight;
    DistributeInv(v.k, ver, t, amount);
    LedgerPushed(v.k, FeesDistributed(ver, t, amount));
  }
}
