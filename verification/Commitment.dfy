/**
 The identity and wallet commitments as the contracts compute them (P2IDHash), and that they agree with what
 the circuit puts out. A digest stands for the bytes it is taken of.
 */
module Commitment {
  import opened Types
  import opened Encoding
  import opened Scan
  import opened Circuit

  // ------------------------------------------------------------------ commitments tell apart

  /** A commitment determines the identity type and the normalised value. */
  lemma PreimageInjective(id: nat, value: string, id': nat, value': string)
    requires id < 256 && id' < 256
    ensures Preimage(id, value) == Preimage(id', value') <==> id == id' && value == value'
  {
    var p, p' := Preimage(id, value), Preimage(id', value');
    assert p[|HASH_PREFIX|] == id as char && p[|HASH_PREFIX| + 1..] == value;
    assert p'[|HASH_PREFIX|] == id' as char && p'[|HASH_PREFIX| + 1..] == value';
  }

  // ------------------------------------------------------------------ the library on chain

  /** The commitment to an identity value; None reverts. */
  function IdentityHash(id: nat, value: string): Option<string> {
    if id >= NUM_TYPES || |value| == 0 || |value| > MAX_VALUE_LEN then None
    else Some(Preimage(id, Normalized(value, id)))
  }

  /** Lowercase unless it is a phone number or a wallet that does not start as hex: what the circuit does. */
  method Normalize(id: nat, value: string) returns (out: string)
    requires id < NUM_TYPES
    ensures out == Normalized(value, id)
  {
    var lower: bool;
    if id == WALLET {
      lower := |value| >= 2 && value[0] == '0' && value[1] == 'x';
    } else {
      lower := id != 1;
    }
    if !lower {
      return value;
    }
    out := "";
    for i := 0 to |value|
      invariant out == Lower(value[..i])
    {
      var c := value[i];
      assert value[..i + 1][..i] == value[..i];
      out := out + [if 65 <= c as int <= 90 then (c as int + 32) as char else c];
    }
    assert value[..|value|] == value;
  }

  /** The commitment, and the text it is over: no capitals are left in a value whose case does not count. */
  method HashIdentity(id: nat, value: string) returns (digest: Option<string>)
    ensures digest == IdentityHash(id, value)
    ensures digest.Some? <==> id < 13 && 1 <= |value| <= 128
    ensures digest.Some? ==>
              exists text :: CommittedText(id, value, text)
                             && digest.value == "p2id.identity.v1" + [id as char] + text
  {
    hide TypeName, CommittedText;
    if id >= NUM_TYPES || |value| == 0 || |value| > MAX_VALUE_LEN {
      return None;
    }
    var normal := Normalize(id, value);
    NormalText(id, value);
    assert CommittedText(id, value, normal);
    digest := Some(HASH_PREFIX + [id as char] + normal);
  }

  // ------------------------------------------------------------------ which values are committed to alike

  lemma LoweredAlike(s: string, t: string)
    ensures Lower(s) == Lower(t) <==> SameUpToCase(s, t)
  {
    hide SameLetter;
    forall i | 0 <= i < |s| && i < |t|
      ensures Lower(s)[i] == Lower(t)[i] <==> SameLetter(s[i], t[i])
    {
      LoweredLetter(s[i], t[i]);
    }
    if SameUpToCase(s, t) {
      assert Lower(s) == Lower(t);
    } else if |s| == |t| {
      var i :| 0 <= i < |s| && !SameLetter(s[i], t[i]);
      assert Lower(s)[i] != Lower(t)[i];
    }
  }

  /** A value that keeps its case and one that does not are never hashed alike. */
  lemma KeptIsApart(id: nat, s: string, t: string)
    requires id < NUM_TYPES && KeepsCase(id, s) && !KeepsCase(id, t)
    ensures Normalized(s, id) != Normalized(t, id)
  {
    hide TypeName;
    NamesTell(id);
    StartsHex(s);
    StartsHex(t);
    assert Lower(t)[0] == '0' && Lower(t)[1] == 'x';
  }

  /** Two values name the same account: equal, or equal up to letter case where neither keeps it. */
  predicate SameIdentity(id: nat, s: string, t: string)
    requires id < NUM_TYPES
  {
    if KeepsCase(id, s) || KeepsCase(id, t) then s == t else SameUpToCase(s, t)
  }

  lemma NormalAlike(id: nat, s: string, t: string)
    requires id < NUM_TYPES
    ensures Normalized(s, id) == Normalized(t, id) <==> SameIdentity(id, s, t)
  {
    hide TypeName, SameUpToCase;
    NamesTell(id);
    StartsHex(s);
    StartsHex(t);
    LoweredAlike(s, t);
    if KeepsCase(id, s) != KeepsCase(id, t) {
      if KeepsCase(id, s) {
        KeptIsApart(id, s, t);
      } else {
        KeptIsApart(id, t, s);
      }
    }
  }

  /**
   On chain: two values of the same type within the limits have the same commitment exactly when they are equal
   up to ASCII letter case; phone numbers, and wallets that do not start with 0x, exactly when they are equal.
   */
  lemma HashesAlike(id: nat, s: string, t: string)
    requires id < 13 && 1 <= |s| <= 128 && 1 <= |t| <= 128
    ensures IdentityHash(id, s) == IdentityHash(id, t) <==> SameIdentity(id, s, t)
  {
    hide Preimage, Normalized;
    PreimageInjective(id, Normalized(s, id), id, Normalized(t, id));
    NormalAlike(id, s, t);
  }

  /** In the circuit: so have two accepted proofs, exactly when their types and the values they prove are the same. */
  lemma ProofsAlike(data: string, len: nat, off: Offsets, id: nat, wallet: nat,
                    data': string, len': nat, off': Offsets, id': nat, wallet': nat)
    requires Accepts(data, len, off, id, wallet) && Accepts(data', len', off', id', wallet')
    ensures ClaimOf(data, len, off, id, wallet).identity == ClaimOf(data', len', off', id', wallet').identity
            <==> id == id' && SameIdentity(id, ValueOf(data, off.account, id), ValueOf(data', off'.account, id'))
  {
    hide At, IatOk, LinkedAccountsOk, Bounded, RangeOk, TypeOk, ValueOk, Decimal, Preimage, Normalized;
    var s, t := ValueOf(data, off.account, id), ValueOf(data', off'.account, id');
    PreimageInjective(id, Normalized(s, id), id', Normalized(t, id'));
    if id == id' {
      NormalAlike(id, s, t);
    }
  }

  /** The last n hexadecimal digits of a number. */
  function FixedHex(a: nat, n: nat): (s: string)
    ensures |s| == n && HexDigits(s)
  {
    if n == 0 then [] else FixedHex(a / 16, n - 1) + [DigitChar(a % 16)]
  }

  lemma {:induction false} FixedHexValue(a: nat, n: nat)
    requires a < Pow16(n)
    ensures HexValue(FixedHex(a, n)) == a
  {
    if n > 0 {
      FixedHexValue(a / 16, n - 1);
      assert FixedHex(a, n)[..n - 1] == FixedHex(a / 16, n - 1);
    }
  }

  /** An address as 0x and forty digits. */
  function WalletText(a: nat): string {
    "0x" + FixedHex(a, 40)
  }

  /** Digits are written from the last to the first. */
  method ToLowerHex(a: nat) returns (out: string)
    requires a < ADDRESS_LIMIT
    ensures out == WalletText(a)
  {
    var digits := "0123456789abcdef";
    var text := new char[42];
    text[0], text[1] := '0', 'x';
    var v, i := a, 41;
    assert text[2..][..40] + text[42..] == text[2..];
    while i > 1
      invariant 1 <= i <= 41 && text[0] == '0' && text[1] == 'x'
      invariant FixedHex(a, 40) == FixedHex(v, i - 1) + text[i + 1..]
      decreases i
    {
      DigitTable(v % 16);
      ghost var rest := text[i + 1..];
      text[i] := digits[v % 16];
      assert text[i..] == [digits[v % 16]] + rest;
      assert FixedHex(v, i - 1) == FixedHex(v / 16, i - 2) + [digits[v % 16]];
      assert FixedHex(v / 16, i - 2) + text[i..] == FixedHex(v, i - 1) + rest;
      v, i := v / 16, i - 1;
    }
    assert text[..] == [text[0], text[1]] + text[2..];
    out := text[..];
  }

  lemma DigitTable(d: nat)
    requires d < 16
    ensures "0123456789abcdef"[d] == DigitChar(d)
  {
  }

  /** The commitment a PviumVerifier compares the proof's with. */
  function WalletHash(a: nat): string {
    Preimage(WALLET, WalletText(a))
  }

  // ------------------------------------------------------------------ circuit and contract agree

  /** The printed form of the address a hex wallet stands for is its lowercase form. */
  lemma WalletTextOf(value: string)
    requires EvmHex(value) && AddressOf(value).Some?
    ensures WalletText(AddressOf(value).value) == Lower(value)
  {
    var digits := Lower(value)[2..];
    AddressFits(value);
    AddressLimit();
    FixedHexValue(AddressOf(value).value, 40);
    HexInjective(digits, FixedHex(HexValue(digits), 40));
    assert Lower(value) == "0x" + digits;
  }

  lemma HexTextIsHex(value: string, a: nat)
    requires Normalized(value, WALLET) == WalletText(a)
    ensures EvmHex(value)
  {
    assert WalletText(a)[0] == '0' && WalletText(a)[1] == 'x';
  }

  /**
   The cross-check on chain: of an accepted proof the wallet commitment is that of an address exactly when a
   hex wallet is used and the address is the public one. So a verifier that pays the public wallet after
   comparing commitments pays the wallet of the token, and never refuses a proof that has one.
   */
  lemma CrossCheck(data: string, len: nat, off: Offsets, id: nat, wallet: nat, a: nat)
    requires Accepts(data, len, off, id, wallet) && a < ADDRESS_LIMIT
    ensures ClaimOf(data, len, off, id, wallet).wallet == WalletHash(a)
            <==> off.wallet.valueLen != 0 && EvmHex(ValueOf(data, off.wallet, WALLET)) && a == wallet
    ensures wallet != 0 ==> ClaimOf(data, len, off, id, wallet).wallet == WalletHash(wallet)
  {
    hide At, IatOk, LinkedAccountsOk, Bounded, RangeOk, TypeOk, ValueOk, Decimal, HexValue, FixedHex, Preimage;
    if off.wallet.valueLen != 0 {
      var value := ValueOf(data, off.wallet, WALLET);
      PreimageInjective(WALLET, Normalized(value, WALLET), WALLET, WalletText(a));
      AddressFits(value);
      if EvmHex(value) {
        WalletTextOf(value);
        SameText(a, wallet);
      } else if Normalized(value, WALLET) == WalletText(a) {
        HexTextIsHex(value, a);
      }
    } else {
      NotEmpty(a);
    }
  }

  lemma NotEmpty(a: nat)
    ensures WalletHash(a) != []
  {
  }

  lemma SameText(a: nat, b: nat)
    requires a < ADDRESS_LIMIT && b < ADDRESS_LIMIT
    ensures WalletText(a) == WalletText(b) <==> a == b
  {
    hide HexValue, FixedHex;
    AddressLimit();
    FixedHexValue(a, 40);
    FixedHexValue(b, 40);
    assert WalletText(a)[2..] == FixedHex(a, 40) && WalletText(b)[2..] == FixedHex(b, 40);
  }

  /** A proof routes to the salt a payer computes exactly for its type and a value that names the same account. */
  lemma RoutesTo(data: string, len: nat, off: Offsets, id: nat, wallet: nat, id': nat, value: string)
    requires Accepts(data, len, off, id, wallet)
    ensures Some(ClaimOf(data, len, off, id, wallet).identity) == IdentityHash(id', value)
            <==> id' == id && 1 <= |value| <= 128 && SameIdentity(id, value, ValueOf(data, off.account, id))
  {
    hide At, IatOk, LinkedAccountsOk, Bounded, RangeOk, TypeOk, ValueOk, Decimal, Preimage, Normalized;
    if id' < NUM_TYPES {
      PreimageInjective(id, Normalized(ValueOf(data, off.account, id), id), id', Normalized(value, id'));
      if id' == id {
        NormalAlike(id, value, ValueOf(data, off.account, id));
      }
    }
  }

  /** What an accepted proof commits to is the prefix, its type, and the text of the value it proves. */
  lemma ProofCommits(data: string, len: nat, off: Offsets, id: nat, wallet: nat)
    requires Accepts(data, len, off, id, wallet)
    ensures exists text: string :: CommittedText(id, ValueOf(data, off.account, id), text)
                           && ClaimOf(data, len, off, id, wallet).identity == "p2id.identity.v1" + [id as char] + text
  {
    hide At, IatOk, LinkedAccountsOk, Bounded, RangeOk, TypeOk, ValueOk, Decimal, Normalized, CommittedText;
    var value := ValueOf(data, off.account, id);
    NormalText(id, value);
    assert CommittedText(id, value, Normalized(value, id));
  }
}
