/**
 The vault proxy on storage: an upgrade, step by step, against its specification in System. The
 implementation and the upgrade record are written before the vault's hook runs, and a later failure
 takes everything back, the vault's changes included.
 */
module ProxyContract {
  import opened Types
  import opened KeySet
  import opened Factory
  import opened OwnerCache
  import opened VaultContract
  import V = Vault
  import S = System

  class PviumP2IDVaultProxy {
    /** The storage that the installed implementation's code works on. */
    const vault: P2IDVault
    /** The identity hash that its address is derived from. */
    const identity: Word
    var implementation: Address
    var lastWallet: Address
    var lastIat: nat
    var upgrading: bool
    var alphaUpgradeNonceUsed: set<nat>

    ghost function Abs(): S.Proxy
      reads `implementation, `lastWallet, `lastIat, `alphaUpgradeNonceUsed
    {
      S.Proxy(identity, implementation, lastWallet, lastIat, alphaUpgradeNonceUsed)
    }

    ghost function State(c: Ctx): S.World
      reads `implementation, `lastWallet, `lastIat, `alphaUpgradeNonceUsed, vault
    {
      S.World(vault.Abs(), Abs(), c, [])
    }

    constructor (v: P2IDVault, id: Word, impl: Address)
      ensures vault == v && !upgrading && Abs() == S.Proxy(id, impl, 0, 0, {})
    {
      vault, identity, implementation, lastWallet, lastIat := v, id, impl, 0, 0;
      upgrading, alphaUpgradeNonceUsed := false, {};
    }

    /** The issue-time floors of the current implementation, discarding values too far in the future. */
    method VaultFloor(c: Ctx, ver: Address) returns (floor: int)
      ensures floor == S.VaultFloor(vault.Abs().ca, c, ver)
    {
      var a, b: int := Get(vault.latestProofIat, ver), vault.untrackedProofIat;
      var limit := c.now + FUTURE_SLACK;
      if a > limit {
        a := 0;
      }
      if b > limit {
        b := 0;
      }
      floor := if a > b then a else b;
    }

    /** The alpha check of an upgrade, spending the attestation's nonce. */
    method Authorise(c: Ctx, att: V.AlphaAttestation) returns (ok: bool, ghost auth: Auth)
      modifies `alphaUpgradeNonceUsed
      ensures ok ==> S.AuthoriseUpgrade(old(State(c)), att) == Some((alphaUpgradeNonceUsed, auth))
      ensures !ok ==> S.AuthoriseUpgrade(old(State(c)), att).None?
    {
      auth := Unattested;
      var key := VkHash(c, c.f.defaultVerifier);
      if key.None? {
        return false, auth;
      }
      if IsAlpha(c.f, key.value) {
        if !att.present || att.nonce in alphaUpgradeNonceUsed || !V.VerifyAlpha(c.f, c.now, att) {
          return false, auth;
        }
        alphaUpgradeNonceUsed := alphaUpgradeNonceUsed + {att.nonce};
        auth := ProxyNonce(att.nonce);
      }
      ok := true;
    }

    /** The checks on the presented proof against the last upgrade and the vault's floors. */
    method ProofIsNew(c: Ctx, p: Proof) returns (ok: bool)
      ensures ok == S.UpgradeProofNew(State(c), p)
    {
      hide S.VaultFloor;
      if p.iat > c.now + FUTURE_SLACK {
        return false;
      }
      var wallet, iat := lastWallet, lastIat;
      if iat > c.now + FUTURE_SLACK {
        wallet, iat := 0, 0;
      }
      if p.iat < iat || (p.iat == iat && p.wallet != wallet) {
        return false;
      }
      var floor := VaultFloor(c, c.f.defaultVerifier);
      ok := p.iat >= floor;
    }

    /** Write the record and the implementation, apply the proof through the hook, and read the result back. */
    method Install(c: Ctx, impl: Address, p: Proof, ghost auth: Auth) returns (ok: bool)
      modifies `implementation, `lastWallet, `lastIat, vault
      ensures var hook := S.AcceptOwnerProof(old(vault.Abs()), c, c.f.defaultVerifier, p.origin, p.wallet, p.iat, auth);
              var ver := c.f.defaultVerifier;
              && ok == (hook.Some? && Get(hook.value.ca.owner, ver) == p.wallet
                        && Get(hook.value.ca.latest, ver) >= p.iat)
              && (ok ==>
                    vault.Abs() == hook.value && implementation == impl && lastWallet == p.wallet && lastIat == p.iat)
      ensures SameSettings(old(vault.Abs()), vault.Abs())
    {
      hide S.AcceptOwnerProof;
      var ver := c.f.defaultVerifier;
      HookKeepsSettings(vault.Abs(), c, ver, p, auth);
      lastWallet, lastIat := p.wallet, p.iat;
      implementation := impl;
      ok := vault.AcceptOwnerProof(vault.self, c, ver, p.origin, p.wallet, p.iat, auth);
      if ok {
        ok := implementation == impl && Get(vault.owner, ver) == p.wallet && Get(vault.latestProofIat, ver) >= p.iat;
      }
    }

    method Attempt(c: Ctx, caller: Address, identityHash: Word, impl: Address, p: Proof, att: V.AlphaAttestation)
      returns (ok: bool)
      modifies `implementation, `lastWallet, `lastIat, `alphaUpgradeNonceUsed, vault
      ensures var r := S.UpgradeTo(old(State(c)), caller, identityHash, impl, p, att);
              ok == r.ok && (ok ==> State(c) == r.w)
      ensures SameSettings(old(vault.Abs()), vault.Abs())
    {
      hide S.AuthoriseUpgrade, S.UpgradeProofNew, S.AcceptOwnerProof, Verifies;
      if identityHash != identity || impl !in c.f.registered || impl !in c.guarded || impl == implementation {
        return false;
      }
      ghost var s0, auth := State(c), Unattested;
      ok, auth := Authorise(c, att);
      if !ok || !Verifies(c, c.f.defaultVerifier, identityHash, 0, p) || p.wallet != caller {
        return false;
      }
      UsedIsIrrelevant(s0, alphaUpgradeNonceUsed, p);
      ok := ProofIsNew(c, p);
      if ok {
        ok := Install(c, impl, p, auth);
      }
    }

    /** upgradeTo: refused while one is under way; a failure leaves every slot as it was. */
    method UpgradeTo(c: Ctx, caller: Address, identityHash: Word, impl: Address, p: Proof,
                     att: V.AlphaAttestation)
      returns (ok: bool)
      modifies this, vault
      ensures upgrading == old(upgrading)
      ensures old(upgrading) ==> !ok && State(c) == old(State(c))
      ensures !old(upgrading) ==>
                S.Result(State(c), ok) == S.UpgradeTo(old(State(c)), caller, identityHash, impl, p, att)
    {
      hide S.UpgradeTo;
      if upgrading {
        return false;
      }
      upgrading := true;
      ghost var s0 := State(c);
      var before := vault.Save();
      var impl0, wallet0, iat0, used0 := implementation, lastWallet, lastIat, alphaUpgradeNonceUsed;
      ok := Attempt(c, caller, identityHash, impl, p, att);
      if !ok {
        vault.Restore(before, s0.v);
        implementation, lastWallet, lastIat, alphaUpgradeNonceUsed := impl0, wallet0, iat0, used0;
        FailureKeepsWorld(s0, caller, identityHash, impl, p, att);
      }
      upgrading := false;
    }
  }

  predicate SameSettings(v: V.Vault, w: V.Vault) {
    v.salt == w.salt && v.minWindow == w.minWindow && v.maxWindow == w.maxWindow
  }

  lemma HookKeepsSettings(v: V.Vault, c: Ctx, ver: Address, p: Proof, auth: Auth)
    ensures var r := S.AcceptOwnerProof(v, c, ver, p.origin, p.wallet, p.iat, auth);
            r.Some? ==> SameSettings(v, r.value)
  {
    hide Apply, Claimable;
  }

  lemma UsedIsIrrelevant(s: S.World, used: set<nat>, p: Proof)
    ensures S.UpgradeProofNew(s.(px := s.px.(used := used)), p) == S.UpgradeProofNew(s, p)
  {
  }

  lemma FailureKeepsWorld(s: S.World, caller: Address, identityHash: Word, impl: Address, p: Proof,
                          att: V.AlphaAttestation)
    ensures !S.UpgradeTo(s, caller, identityHash, impl, p, att).ok
            ==> S.UpgradeTo(s, caller, identityHash, impl, p, att).w == s
  {
  }
}
