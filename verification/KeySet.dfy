/**
 The signer-key set of PviumIdentity: a seven-day notice for additions, immediate removal, and a
 revision that moves with every removal so that consumers can void what they cached.
 */
module KeySet {
  import opened Types

  /** A P-256 public key by its affine coordinates. */
  datatype Key = Key(x: nat, y: nat)

  /** `eta` maps a key to its earliest activation time; 0 means no proposal. */
  datatype KeyState = KeyState(keys: set<Key>, count: int, revision: nat, eta: map<Key, int>, owner: Address)

  datatype KeyOp =
    | Propose(caller: Address, key: Key)
    | Cancel(caller: Address, key: Key)
    | Activate(key: Key)
    | Remove(caller: Address, key: Key)

  const P256_P: nat := 0xFFFFFFFF00000001000000000000000000000000FFFFFFFFFFFFFFFFFFFFFFFF
  const P256_B: nat := 0x5AC635D8AA3A93E7B3EBBD55769886BC651D06B0CC53B0F63BCE3C3E27D2604B

  /** Coordinate bounds and the curve equation y^2 = x^3 - 3x + b over the P-256 field. */
  predicate OnCurve(k: Key) {
    && k.x < P256_P
    && k.y < P256_P
    && (k.y * k.y) % P256_P
       == ((((k.x * k.x) % P256_P * k.x) % P256_P + (P256_P - (3 * k.x) % P256_P)) % P256_P + P256_B) % P256_P
  }

  predicate IsOwner(s: KeyState, caller: Address) {
    caller == s.owner && s.owner != 0
  }

  /** One call to the key-management entry points at time `now`; None is a revert. */
  function KeyStep(s: KeyState, op: KeyOp, now: nat): Option<KeyState> {
    match op
    case Propose(caller, k) =>
      if IsOwner(s, caller) && OnCurve(k) && k !in s.keys
      then Some(s.(eta := s.eta[k := now + DAYS_7]))
      else None
    case Cancel(caller, k) =>
      if IsOwner(s, caller) && Get(s.eta, k) != 0 then Some(s.(eta := s.eta[k := 0])) else None
    case Activate(k) =>
      if Get(s.eta, k) != 0 && now >= Get(s.eta, k) && k !in s.keys
      then Some(s.(eta := s.eta[k := 0], keys := s.keys + {k}, count := s.count + 1))
      else None
    case Remove(caller, k) =>
      if IsOwner(s, caller) && k in s.keys
      then Some(s.(keys := s.keys - {k}, count := s.count - 1, revision := s.revision + 1))
      else None
  }

  /** The state after a call, whether it succeeded or reverted. */
  function KeyAfter(s: KeyState, op: KeyOp, now: nat): KeyState {
    match KeyStep(s, op, now)
    case Some(s') => s'
    case None => s
  }

  /** The state after a sequence of timed calls. */
  function KeyRun(s: KeyState, run: seq<(nat, KeyOp)>): KeyState {
    if run == [] then s
    else
      var prior := KeyRun(s, run[..|run| - 1]);
      KeyAfter(prior, run[|run| - 1].1, run[|run| - 1].0)
  }

  ghost predicate TimesFrom(t0: nat, run: seq<(nat, KeyOp)>) {
    && (forall i :: 0 <= i < |run| ==> t0 <= run[i].0)
    && (forall i, j :: 0 <= i < j < |run| ==> run[i].0 <= run[j].0)
  }

  /** The counter is the size of the set, and a key with a pending proposal is not accepted. */
  ghost predicate KeyInv(s: KeyState) {
    && s.count == |s.keys|
    && (forall k :: Get(s.eta, k) != 0 ==> k !in s.keys)
  }

  lemma KeyAfterInv(s: KeyState, op: KeyOp, now: nat)
    requires KeyInv(s)
    ensures KeyInv(KeyAfter(s, op, now))
  {
    var s' := KeyAfter(s, op, now);
    forall k | Get(s'.eta, k) != 0
      ensures k !in s'.keys
    {
      assert Get(s.eta, k) != 0 || op == KeyOp.Propose(s.owner, k);
    }
  }

  lemma {:induction false} KeyRunInv(s: KeyState, run: seq<(nat, KeyOp)>)
    requires KeyInv(s)
    ensures KeyInv(KeyRun(s, run))
  {
    if run != [] {
      KeyRunInv(s, run[..|run| - 1]);
      KeyAfterInv(KeyRun(s, run[..|run| - 1]), run[|run| - 1].1, run[|run| - 1].0);
    }
  }

  /** While the revision stands still keys are only ever added; it never goes back. */
  lemma KeyAfterGrows(s: KeyState, op: KeyOp, now: nat)
    ensures var s' := KeyAfter(s, op, now);
            s'.revision >= s.revision && (s'.revision == s.revision ==> s.keys <= s'.keys)
  {
  }

  /** Over any run, an unchanged revision means that no key was dropped. */
  lemma {:induction false} RevisionPinsKeys(s: KeyState, run: seq<(nat, KeyOp)>)
    ensures var s' := KeyRun(s, run);
            s'.revision >= s.revision && (s'.revision == s.revision ==> s.keys <= s'.keys)
  {
    if run != [] {
      RevisionPinsKeys(s, run[..|run| - 1]);
      KeyAfterGrows(KeyRun(s, run[..|run| - 1]), run[|run| - 1].1, run[|run| - 1].0);
    }
  }

  /** No proposal for `k` can ripen before `t`. */
  ghost predicate NotBefore(s: KeyState, k: Key, t: nat) {
    Get(s.eta, k) == 0 || Get(s.eta, k) >= t
  }

  lemma {:induction false} NoticeOverRun(s: KeyState, k: Key, t0: nat, run: seq<(nat, KeyOp)>)
    requires k !in s.keys && NotBefore(s, k, t0 + DAYS_7)
    requires TimesFrom(t0, run)
    ensures NotBefore(KeyRun(s, run), k, t0 + DAYS_7)
    ensures k in KeyRun(s, run).keys ==> run != [] && run[|run| - 1].0 >= t0 + DAYS_7
  {
    if run != [] {
      NoticeOverRun(s, k, t0, run[..|run| - 1]);
    }
  }

  /** A removed key stays out for at least seven days, whatever anyone calls in between. */
  lemma RemovedKeyStaysOut(s: KeyState, caller: Address, k: Key, t0: nat, run: seq<(nat, KeyOp)>)
    requires KeyInv(s)
    requires KeyStep(s, Remove(caller, k), t0).Some?
    requires TimesFrom(t0, run)
    ensures var s' := KeyRun(KeyAfter(s, Remove(caller, k), t0), run);
            k in s'.keys ==> run != [] && run[|run| - 1].0 >= t0 + DAYS_7
  {
    NoticeOverRun(KeyAfter(s, Remove(caller, k), t0), k, t0, run);
  }

  // ------------------------------------------------------------------ who decides

  /** Run step n is this operation. */
  predicate Step(run: seq<(nat, KeyOp)>, n: int, op: KeyOp) {
    0 <= n < |run| && run[n].1 == op
  }

  /** The owner proposed key k, a point of the curve, in step i and never cancelled before step n. */
  ghost predicate ProposedAt(run: seq<(nat, KeyOp)>, owner: Address, k: Key, i: int, n: int) {
    && owner != 0 && Step(run, i, Propose(owner, k)) && i < n <= |run| && OnCurve(k)
    && forall j :: i < j < n ==> run[j].1 != Cancel(owner, k)
  }

  /** ... and somebody activated it in step j, at least seven days later, and the owner has not removed it since. */
  ghost predicate Admitted(run: seq<(nat, KeyOp)>, owner: Address, k: Key, i: int, j: int) {
    && ProposedAt(run, owner, k, i, j) && Step(run, j, Activate(k)) && run[j].0 >= run[i].0 + DAYS_7
    && forall n :: j < n < |run| ==> run[n].1 != Remove(owner, k)
  }

  /** A standing proposal is the owner's, and its notice runs from the call. */
  lemma {:induction false} ProposalsAreTheOwners(s: KeyState, run: seq<(nat, KeyOp)>, k: Key)
    requires Get(s.eta, k) == 0
    ensures var s' := KeyRun(s, run);
            && s'.owner == s.owner
            && (Get(s'.eta, k) != 0 ==>
                  exists i :: ProposedAt(run, s.owner, k, i, |run|) && Get(s'.eta, k) == run[i].0 + DAYS_7)
  {
    hide OnCurve;
    if run != [] {
      var n := |run| - 1;
      var init := run[..n];
      ProposalsAreTheOwners(s, init, k);
      var s1, s' := KeyRun(s, init), KeyRun(s, run);
      if Get(s'.eta, k) != 0 {
        if run[n].1 == Propose(s.owner, k) && KeyStep(s1, run[n].1, run[n].0).Some? {
          assert ProposedAt(run, s.owner, k, n, |run|);
        } else {
          var i :| ProposedAt(init, s.owner, k, i, |init|) && Get(s1.eta, k) == init[i].0 + DAYS_7;
          assert ProposedAt(run, s.owner, k, i, |run|);
        }
      }
    }
  }

  /**
   Over any run: an accepted key is an initial one that the owner never removed, or the owner proposed it, it is
   a point of the curve, and it was activated at least seven days later without having been cancelled.
   */
  lemma {:induction false} KeysAreTheOwners(s: KeyState, run: seq<(nat, KeyOp)>, k: Key)
    requires Get(s.eta, k) == 0 && s.owner != 0
    ensures k in KeyRun(s, run).keys ==>
              || (k in s.keys && forall n :: 0 <= n < |run| ==> run[n].1 != Remove(s.owner, k))
              || exists i, j :: Admitted(run, s.owner, k, i, j)
  {
    hide OnCurve;
    if run != [] && k in KeyRun(s, run).keys {
      var n := |run| - 1;
      var init := run[..n];
      KeysAreTheOwners(s, init, k);
      ProposalsAreTheOwners(s, init, k);
      var s1 := KeyRun(s, init);
      if k in s1.keys {
        if exists i, j :: Admitted(init, s.owner, k, i, j) {
          var i, j :| Admitted(init, s.owner, k, i, j);
          assert Admitted(run, s.owner, k, i, j);
        }
      } else {
        var i :| ProposedAt(init, s.owner, k, i, |init|) && Get(s1.eta, k) == init[i].0 + DAYS_7;
        assert Admitted(run, s.owner, k, i, n);
      }
    }
  }

  /** And a key leaves only when the owner removes it. */
  lemma {:induction false} KeysLeaveByTheOwner(s: KeyState, run: seq<(nat, KeyOp)>, k: Key)
    requires k in s.keys
    ensures KeyRun(s, run).owner == s.owner
    ensures k !in KeyRun(s, run).keys ==> exists n :: Step(run, n, Remove(s.owner, k))
  {
    hide OnCurve;
    if run != [] {
      var n := |run| - 1;
      KeysLeaveByTheOwner(s, run[..n], k);
      if k !in KeyRun(s, run).keys {
        if k in KeyRun(s, run[..n]).keys {
          assert Step(run, n, Remove(s.owner, k));
        } else {
          var m :| Step(run[..n], m, Remove(s.owner, k));
          assert Step(run, m, Remove(s.owner, k));
        }
      }
    }
  }

  lemma RunOfOne(s: KeyState, call: (nat, KeyOp))
    ensures KeyRun(s, [call]) == KeyAfter(s, call.1, call.0)
  {
    var run := [call];
    assert KeyRun(s, run[..0]) == s;
  }

  /** A point of the curve that the owner proposes is accepted once activated after seven days, unless cancelled. */
  lemma ProposalsWork(s: KeyState, k: Key, t0: nat, t1: nat)
    requires s.owner != 0 && k !in s.keys && t1 >= t0 + DAYS_7
    ensures OnCurve(k) ==> KeyRun(s, [(t0, Propose(s.owner, k)), (t1, Activate(k))]).keys == s.keys + {k}
    ensures OnCurve(k) ==>
              k !in KeyRun(s, [(t0, Propose(s.owner, k)), (t0, Cancel(s.owner, k)), (t1, Activate(k))]).keys
  {
    hide OnCurve;
    var propose, cancel, activate := (t0, Propose(s.owner, k)), (t0, Cancel(s.owner, k)), (t1, Activate(k));
    RunOfOne(s, propose);
    assert [propose, activate][..1] == [propose];
    assert [propose, cancel, activate][..2] == [propose, cancel] && [propose, cancel][..1] == [propose];
  }

  /** A key the owner removes is out at once, and the revision moves by one. */
  lemma RemovalsWork(s: KeyState, k: Key, now: nat)
    requires s.owner != 0 && k in s.keys
    ensures var s' := KeyRun(s, [(now, Remove(s.owner, k))]);
            s'.keys == s.keys - {k} && s'.revision == s.revision + 1 && s'.count == s.count - 1
  {
    RunOfOne(s, (now, Remove(s.owner, k)));
  }

  // ------------------------------------------------------------------ points of the curve

  predicate Congruent(a: int, b: int) {
    (a - b) % P256_P == 0
  }

  lemma Multiples(a: int, b: int, z: int)
    requires a - b == z * P256_P
    ensures Congruent(a, b)
  {
  }

  lemma ProductSplits(q: int, r: int, b: int)
    ensures (q * P256_P + r) * b == q * b * P256_P + r * b
  {
  }

  /** Reducing a factor changes a product by a multiple of p. */
  lemma ReducedTimes(a: nat, b: nat)
    ensures Congruent((a % P256_P * b) % P256_P, a * b)
  {
    var q, r := a / P256_P, a % P256_P;
    var x := r * b;
    assert a == q * P256_P + r;
    ProductSplits(q, r, b);
    var z := -(x / P256_P) - q * b;
    assert x == x / P256_P * P256_P + x % P256_P;
    assert x % P256_P - a * b == z * P256_P by {
      assert z * P256_P == -(x / P256_P) * P256_P - q * b * P256_P;
    }
    Multiples(x % P256_P, a * b, z);
  }

  lemma ReducedSum(a: int, b: int, c: int, d: int)
    requires Congruent(a, b) && Congruent(c, d)
    ensures Congruent((a + c) % P256_P, b + d)
  {
  }

  lemma Negated(n: nat)
    ensures Congruent(P256_P - n % P256_P, 0 - n)
  {
  }

  lemma SameResidue(a: int, r: nat, b: int)
    requires r < P256_P && Congruent(r, b)
    ensures a % P256_P == r <==> Congruent(a, b)
  {
  }

  /** The coordinates are in range and y^2 - (x^3 - 3x + b) vanishes modulo p, in whichever order it is reduced. */
  lemma OnCurveExactlyWhen(k: Key)
    ensures OnCurve(k)
            <==> k.x < P256_P && k.y < P256_P
                 && (k.y * k.y - (k.x * k.x * k.x - 3 * k.x + P256_B)) % P256_P == 0
  {
    hide Congruent;
    var x2, y2 := k.x * k.x, k.y * k.y;
    var a, m := (x2 % P256_P * k.x) % P256_P, P256_P - (3 * k.x) % P256_P;
    ReducedTimes(x2, k.x);
    Negated(3 * k.x);
    ReducedSum(a, x2 * k.x, m, -3 * k.x);
    Constants();
    ReducedSum((a + m) % P256_P, x2 * k.x - 3 * k.x, P256_B, P256_B);
    SameResidue(y2, ((a + m) % P256_P + P256_B) % P256_P, x2 * k.x - 3 * k.x + P256_B);
    CongruentIs(y2, x2 * k.x - 3 * k.x + P256_B);
  }

  lemma Constants()
    ensures Congruent(P256_B, P256_B)
  {
  }

  lemma CongruentIs(a: int, b: int)
    ensures Congruent(a, b) <==> (a - b) % P256_P == 0
  {
  }

  lemma Reduced(a: nat, q: nat, r: nat)
    requires a == q * P256_P + r && r < P256_P
    ensures a % P256_P == r
  {
  }

  const BASE_X: nat := 0x6B17D1F2E12C4247F8BCE6E563A440F277037D812DEB33A0F4A13945D898C296
  const BASE_Y: nat := 0x4FE342E2FE1A7F9B8EE7EB4A7C0F9E162BCE33576B315ECECBB6406837BF51F5

  /** The base point of P-256 passes the test, so its constants are those of the curve. */
  lemma BasePointPasses()
    ensures OnCurve(Key(BASE_X, BASE_Y))
  {
    Reduced(BASE_Y * BASE_Y,
            0x18EE0D07E1CADF1365BD80DD843314DD534834655163ED44A7F051B975F0F918,
            0x55DF5D5850F47BAD82149139979369FE498A9022A412B5E0BEDD2CFC21C3ED91);
    Reduced(BASE_X * BASE_X,
            0x2CCCEBB89ADADB2D42E032C9F9D26319901D0E9589FC7DBBCF3D110B7C638FA8,
            0x98F6B84D29BEF2B281819A5E0E3690D833B699495D694DD1002AE56C426B3F8C);
    Reduced(0x98F6B84D29BEF2B281819A5E0E3690D833B699495D694DD1002AE56C426B3F8C * BASE_X,
            0x3FFD5AA59B9B6C423BF2EC3B463C2DC873F51FEC695ACFAF0687EAC3779C8101,
            0x3C609D594A3EAE9CB85F88944BE7A619497801F461809FCD60F29C8F83BBD509);
    Reduced(3 * BASE_X, 0x1, 0x414775D9A384C6D6EA36B4B02AECC2D7650A788289C19AE2DDE3ABD189CA47C3);
    Reduced(0x3C609D594A3EAE9CB85F88944BE7A619497801F461809FCD60F29C8F83BBD509
            + (P256_P - 0x414775D9A384C6D6EA36B4B02AECC2D7650A788289C19AE2DDE3ABD189CA47C3),
            0x0,
            0xFB19277EA6B9E7C6CE28D3E420FAE341E46D8972D7BF04EA830EF0BDF9F18D45);
    Reduced(0xFB19277EA6B9E7C6CE28D3E420FAE341E46D8972D7BF04EA830EF0BDF9F18D45 + P256_B,
            0x1,
            0x55DF5D5850F47BAD82149139979369FE498A9022A412B5E0BEDD2CFC21C3ED91);
  }

  /** The contract: the same operations on storage, one call at a time. */
  class PviumIdentity {
    var signerKeys: set<Key>
    var signerKeyCount: int
    var keySetRevision: nat
    var proposalEta: map<Key, int>
    var owner: Address

    ghost function Abs(): KeyState
      reads this
    {
      KeyState(signerKeys, signerKeyCount, keySetRevision, proposalEta, owner)
    }

    /** None of the initial keys may be off the curve or repeated; otherwise construction reverts. */
    constructor (keys: seq<Key>, owner: Address)
      requires keys != []
      requires forall i :: 0 <= i < |keys| ==> OnCurve(keys[i])
      requires forall i, j :: 0 <= i < j < |keys| ==> keys[i] != keys[j]
      ensures KeyInv(Abs())
      ensures Abs() == KeyState(set k | k in keys, |keys|, 0, map[], owner)
    {
      signerKeys, signerKeyCount, keySetRevision, proposalEta := {}, |keys|, 0, map[];
      this.owner := owner;
      new;
      for i := 0 to |keys|
        invariant signerKeys == set k | k in keys[..i]
        invariant |signerKeys| == i
        invariant signerKeyCount == |keys| && keySetRevision == 0 && proposalEta == map[] && this.owner == owner
      {
        assert keys[..i + 1] == keys[..i] + [keys[i]];
        assert keys[i] !in signerKeys;
        signerKeys := signerKeys + {keys[i]};
      }
      assert keys[..|keys|] == keys;
    }

    method ProposeSignerKey(caller: Address, key: Key, now: nat) returns (ok: bool)
      modifies this
      ensures ok == KeyStep(old(Abs()), Propose(caller, key), now).Some?
      ensures Abs() == KeyAfter(old(Abs()), Propose(caller, key), now)
    {
      ok := caller == owner && owner != 0 && OnCurve(key) && key !in signerKeys;
      if ok {
        proposalEta := proposalEta[key := now + DAYS_7];
      }
    }

    method CancelSignerKeyProposal(caller: Address, key: Key, now: nat) returns (ok: bool)
      modifies this
      ensures ok == KeyStep(old(Abs()), Cancel(caller, key), now).Some?
      ensures Abs() == KeyAfter(old(Abs()), Cancel(caller, key), now)
    {
      ok := caller == owner && owner != 0 && Get(proposalEta, key) != 0;
      if ok {
        proposalEta := proposalEta[key := 0];
      }
    }

    method ActivateSignerKey(key: Key, now: nat) returns (ok: bool)
      modifies this
      ensures ok == KeyStep(old(Abs()), Activate(key), now).Some?
      ensures Abs() == KeyAfter(old(Abs()), Activate(key), now)
    {
      var eta := Get(proposalEta, key);
      if eta == 0 || now < eta || key in signerKeys {
        return false;
      }
      proposalEta := proposalEta[key := 0];
      signerKeys := signerKeys + {key};
      signerKeyCount := signerKeyCount + 1;
      ok := true;
    }

    method RemoveSignerKey(caller: Address, key: Key, now: nat) returns (ok: bool)
      modifies this
      ensures ok == KeyStep(old(Abs()), Remove(caller, key), now).Some?
      ensures Abs() == KeyAfter(old(Abs()), Remove(caller, key), now)
    {
      if caller != owner || owner == 0 || key !in signerKeys {
        return false;
      }
      signerKeys := signerKeys - {key};
      signerKeyCount := signerKeyCount - 1;
      keySetRevision := keySetRevision + 1;
      ok := true;
    }
  }
}
