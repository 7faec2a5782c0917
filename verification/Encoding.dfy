/**
 How a claim travels: hexadecimal addresses read from the token, printed by the clients and carried as
 a field, and 32-byte values split into two 128-bit halves by the circuit and joined on chain.
 */
module Encoding {
  import opened Types

  // ------------------------------------------------------------------ letter case

  function ToLower(c: char): char {
    if 'A' <= c <= 'Z' then c + 32 as char else c
  }

  function Lower(s: string): (r: string)
    ensures |r| == |s|
    ensures forall i :: 0 <= i < |s| ==> r[i] == ToLower(s[i])
  {
    if s == [] then [] else Lower(s[..|s| - 1]) + [ToLower(s[|s| - 1])]
  }

  // ------------------------------------------------------------------ hexadecimal

  predicate IsHex(c: char) {
    '0' <= c <= '9' || 'a' <= c <= 'f'
  }

  /** Lowercase hexadecimal digits. */
  predicate HexDigits(s: string) {
    forall i :: 0 <= i < |s| ==> IsHex(s[i])
  }

  function DigitValue(c: char): (d: nat)
    requires IsHex(c)
    ensures d < 16
  {
    if c <= '9' then c as int - '0' as int else c as int - 'a' as int + 10
  }

  function DigitChar(d: nat): (c: char)
    requires d < 16
    ensures IsHex(c) && DigitValue(c) == d
  {
    if d < 10 then '0' + d as char else 'a' + (d - 10) as char
  }

  /** Base-16 value, most significant digit first. */
  function HexValue(s: string): nat
    requires HexDigits(s)
  {
    if s == [] then 0 else HexValue(s[..|s| - 1]) * 16 + DigitValue(s[|s| - 1])
  }

  function Pow16(n: nat): nat {
    if n == 0 then 1 else Pow16(n - 1) * 16
  }

  const ADDRESS_LIMIT: nat := 0x1_0000_0000_0000_0000_0000_0000_0000_0000_0000_0000

  lemma AddressLimit()
    ensures Pow16(40) == ADDRESS_LIMIT
  {
    assert Pow16(8) == 0x1_0000_0000;
    assert Pow16(16) == 0x1_0000_0000_0000_0000 by {
      PowSum(8, 8);
    }
    PowSum(16, 16);
    PowSum(32, 8);
  }

  lemma {:induction false} PowSum(m: nat, n: nat)
    ensures Pow16(m + n) == Pow16(m) * Pow16(n)
  {
    if n > 0 {
      PowSum(m, n - 1);
      MulAssoc(Pow16(m), Pow16(n - 1), 16);
    }
  }

  lemma MulAssoc(a: nat, b: nat, c: nat)
    ensures a * b * c == a * (b * c)
  {
  }

  lemma {:induction false} HexBound(s: string)
    requires HexDigits(s)
    ensures HexValue(s) < Pow16(|s|)
  {
    if s != [] {
      HexBound(s[..|s| - 1]);
    }
  }

  lemma HexLast(s: string)
    requires HexDigits(s) && s != []
    ensures var n := |s| - 1;
            HexDigits(s[..n]) && HexValue(s) / 16 == HexValue(s[..n]) && HexValue(s) % 16 == DigitValue(s[n])
  {
  }

  lemma DigitInjective(a: char, b: char)
    requires IsHex(a) && IsHex(b) && DigitValue(a) == DigitValue(b)
    ensures a == b
  {
  }

  /** Equally long digit strings with the same value are the same. */
  lemma {:induction false} HexInjective(s: string, t: string)
    requires HexDigits(s) && HexDigits(t) && |s| == |t| && HexValue(s) == HexValue(t)
    ensures s == t
  {
    hide HexValue, DigitValue;
    if s != [] {
      var n := |s| - 1;
      HexLast(s);
      HexLast(t);
      DigitInjective(s[n], t[n]);
      HexInjective(s[..n], t[..n]);
      assert s == s[..n] + [s[n]] && t == t[..n] + [t[n]];
    }
  }

  /** The shortest lowercase numeral. */
  function Print(n: nat): string {
    if n < 16 then [DigitChar(n)] else Print(n / 16) + [DigitChar(n % 16)]
  }

  function PadStart(s: string, n: nat): string
    decreases n - |s|
  {
    if |s| >= n then s else PadStart(['0'] + s, n)
  }

  lemma {:induction false} PadStartGrows(s: string, c: char, n: nat)
    requires |s| <= n
    ensures PadStart(s + [c], n + 1) == PadStart(s, n) + [c]
    decreases n - |s|
  {
    if |s| < n {
      assert ['0'] + (s + [c]) == (['0'] + s) + [c];
      PadStartGrows(['0'] + s, c, n);
    }
  }

  lemma {:induction false} PrintLength(n: nat, k: nat)
    requires n < Pow16(k) && k > 0
    ensures |Print(n)| <= k
  {
    if n >= 16 {
      PrintLength(n / 16, k - 1);
    }
  }

  /** Printing and zero-padding undoes the fold. */
  lemma {:induction false} PrintHex(s: string)
    requires HexDigits(s) && s != []
    ensures PadStart(Print(HexValue(s)), |s|) == s
  {
    var n := |s| - 1;
    var a, c := s[..n], s[n];
    var v := HexValue(a);
    assert s == a + [c];
    assert HexValue(s) == v * 16 + DigitValue(c) && HexValue(s) / 16 == v && HexValue(s) % 16 == DigitValue(c);
    DigitOf(c);
    if n == 0 {
      assert v == 0;
    } else {
      PrintHex(a);
      HexBound(a);
      PrintLength(v, n);
      if v == 0 {
        PadZeros(n, c);
      } else {
        PadStartGrows(Print(v), c, n);
      }
    }
  }

  lemma DigitOf(c: char)
    requires IsHex(c)
    ensures DigitChar(DigitValue(c)) == c
  {
  }

  lemma PadZeros(n: nat, c: char)
    requires n > 0
    ensures PadStart([c], n + 1) == PadStart(Print(0), n) + [c]
  {
    assert ['0'] + [c] == Print(0) + [c];
    PadStartGrows(Print(0), c, n);
  }

  // ------------------------------------------------------------------ wallet addresses

  const EVM_ADDRESS_LEN: nat := 42

  /** The circuit's test, on the bytes of the token. */
  predicate EvmHex(value: string) {
    |value| >= 2 && value[0] == '0' && value[1] == 'x'
  }

  predicate AnyCaseHex(s: string) {
    HexDigits(Lower(s))
  }

  /** The address a wallet value stands for in the circuit; None when it starts as hex and is no address. */
  function AddressOf(value: string): Option<nat> {
    if !EvmHex(value) then Some(0)
    else if |value| != EVM_ADDRESS_LEN || !HexDigits(Lower(value)[2..]) then None
    else Some(HexValue(Lower(value)[2..]))
  }

  /** The public input the witness builder computes for a requested wallet; None throws. */
  function WalletField(wallet: Option<string>): Option<nat> {
    match wallet
    case None => Some(0)
    case Some(w) =>
      if !EvmHex(Lower(w)) then Some(0)
      else if !(EvmHex(w) && |w| == EVM_ADDRESS_LEN && AnyCaseHex(w[2..])) then None
      else Some(HexValue(Lower(w[2..])))
  }

  /** The wallet a client prints for a claim's field; zero means there is none. */
  function DecodeWallet(field: nat): Option<string> {
    if field == 0 then None else Some("0x" + PadStart(Print(field), 40))
  }

  lemma LowerTail(s: string, n: nat)
    requires n <= |s|
    ensures Lower(s)[n..] == Lower(s[n..])
  {
  }

  /** Whatever the witness builder announces as the wallet is what the circuit reads out of the token. */
  lemma FieldIsAddress(wallet: string)
    ensures WalletField(Some(wallet)).Some? ==> AddressOf(wallet) == WalletField(Some(wallet))
    ensures WalletField(Some(wallet)).None? <==>
              EvmHex(Lower(wallet)) && (wallet[1] == 'X' || AddressOf(wallet).None?)
  {
    if |wallet| >= 2 {
      LowerTail(wallet, 2);
    }
  }

  lemma AddressFits(value: string)
    requires AddressOf(value).Some?
    ensures AddressOf(value).value < ADDRESS_LIMIT
  {
    if EvmHex(value) {
      HexBound(Lower(value)[2..]);
      AddressLimit();
    }
  }

  /** A nonzero address is recovered in lowercase. */
  lemma WalletRoundTrip(wallet: string)
    requires EvmHex(wallet) && AddressOf(wallet).Some? && AddressOf(wallet).value != 0
    ensures DecodeWallet(AddressOf(wallet).value) == Some(Lower(wallet))
  {
    PrintHex(Lower(wallet)[2..]);
    assert Lower(wallet) == "0x" + Lower(wallet)[2..];
  }

  /** Two addresses have the same field exactly when they differ only in letter case. */
  lemma FieldsDistinguish(v: string, w: string)
    requires EvmHex(v) && EvmHex(w) && AddressOf(v).Some? && AddressOf(w).Some?
    ensures AddressOf(v) == AddressOf(w) <==> Lower(v) == Lower(w)
  {
    if AddressOf(v) == AddressOf(w) {
      HexInjective(Lower(v)[2..], Lower(w)[2..]);
      assert Lower(v) == "0x" + Lower(v)[2..] && Lower(w) == "0x" + Lower(w)[2..];
    }
  }

  // ------------------------------------------------------------------ 32-byte values in two halves

  type Byte = n: nat | n < 256

  /** Big-endian value. */
  function BigEndian(s: seq<Byte>): nat {
    if s == [] then 0 else BigEndian(s[..|s| - 1]) * 256 + s[|s| - 1]
  }

  function Pow(b: nat, n: nat): nat {
    if n == 0 then 1 else Pow(b, n - 1) * b
  }

  lemma {:induction false} BigEndianBound(s: seq<Byte>)
    ensures BigEndian(s) < Pow(256, |s|)
  {
    if s != [] {
      BigEndianBound(s[..|s| - 1]);
    }
  }

  lemma {:induction false} BigEndianConcat(s: seq<Byte>, t: seq<Byte>)
    ensures BigEndian(s + t) == BigEndian(s) * Pow(256, |t|) + BigEndian(t)
  {
    if t == [] {
      assert s + t == s;
    } else {
      var t' := t[..|t| - 1];
      assert (s + t)[..|s + t| - 1] == s + t';
      BigEndianConcat(s, t');
      MulAssoc(BigEndian(s), Pow(256, |t'|), 256);
    }
  }

  /** The circuit's loop over a 32-byte hash: both halves at once. */
  method PackHash(h: seq<Byte>) returns (hi: nat, lo: nat)
    requires |h| == 32
    ensures hi == BigEndian(h[..16]) && lo == BigEndian(h[16..])
  {
    hi, lo := 0, 0;
    for i := 0 to 16
      invariant hi == BigEndian(h[..i]) && lo == BigEndian(h[16..16 + i])
    {
      assert h[..i + 1][..i] == h[..i];
      assert h[16..16 + i + 1][..i] == h[16..16 + i];
      hi := hi * 256 + h[i];
      lo := lo * 256 + h[16 + i];
    }
    assert h[16..16 + 16] == h[16..];
  }

  /** Bitwise or. */
  function Or(a: nat, b: nat): nat
    decreases a + b
  {
    if a == 0 && b == 0 then 0
    else Or(a / 2, b / 2) * 2 + (if a % 2 == 1 || b % 2 == 1 then 1 else 0)
  }

  /** On chain: the high half shifted up by 128 bits (in a 256-bit word), or the low half. */
  function Join(hi: nat, lo: nat): nat {
    Or(hi * Pow(2, 128) % (MAX_U256 + 1), lo)
  }

  lemma {:induction false} OrZero(a: nat)
    ensures Or(a, 0) == a && Or(0, a) == a
  {
    if a > 0 {
      OrZero(a / 2);
    }
  }

  /** Without common bits, or is addition. */
  lemma {:induction false} OrDisjoint(h: nat, l: nat, k: nat)
    requires l < Pow(2, k)
    ensures Or(h * Pow(2, k), l) == h * Pow(2, k) + l
    decreases k
  {
    if k == 0 {
      OrZero(h);
    } else {
      var a := h * Pow(2, k - 1);
      assert h * Pow(2, k) == 2 * a by {
        MulAssoc(h, Pow(2, k - 1), 2);
      }
      OrDisjoint(h, l / 2, k - 1);
      assert (2 * a) / 2 == a && (2 * a) % 2 == 0;
      OrStep(2 * a, l);
    }
  }

  lemma OrStep(a: nat, b: nat)
    ensures Or(a, b) == Or(a / 2, b / 2) * 2 + (if a % 2 == 1 || b % 2 == 1 then 1 else 0)
  {
  }

  lemma {:induction false} PowDouble(b: nat, n: nat)
    ensures Pow(b * b, n) == Pow(b, 2 * n)
  {
    if n > 0 {
      PowDouble(b, n - 1);
      assert Pow(b, 2 * n) == Pow(b, 2 * n - 1) * b == Pow(b, 2 * (n - 1)) * b * b;
      MulAssoc(Pow(b, 2 * (n - 1)), b, b);
    }
  }

  const HALF: nat := 0x1_0000_0000_0000_0000_0000_0000_0000_0000

  lemma HalfIsPow()
    ensures Pow(2, 128) == HALF && Pow(256, 16) == HALF && HALF * HALF == MAX_U256 + 1
  {
    PowDouble(2, 64);
    PowDouble(4, 32);
    PowDouble(16, 16);
    PowDouble(256, 8);
    PowDouble(0x1_0000, 4);
    PowDouble(0x1_0000_0000, 2);
    PowDouble(0x1_0000_0000_0000_0000, 1);
    assert Pow(HALF, 1) == HALF;
  }

  /** Splitting a 32-byte value and joining it on chain gives it back. */
  lemma JoinSplit(h: seq<Byte>)
    requires |h| == 32
    ensures Join(BigEndian(h[..16]), BigEndian(h[16..])) == BigEndian(h)
  {
    hide BigEndian, Pow, Or;
    var hi, lo := BigEndian(h[..16]), BigEndian(h[16..]);
    BigEndianBound(h[..16]);
    BigEndianBound(h[16..]);
    HalfIsPow();
    BigEndianConcat(h[..16], h[16..]);
    assert h == h[..16] + h[16..];
    assert hi * HALF < HALF * HALF;
    OrDisjoint(hi, lo, 128);
  }

  // ------------------------------------------------------------------ the attestation

  /** What the circuit attests; hashes and coordinates as 32 bytes. */
  datatype Attested = Attested(identityType: nat, wallet: nat, x: seq<Byte>, y: seq<Byte>, iat: nat,
                               identityHash: seq<Byte>, walletHash: seq<Byte>)

  predicate Fits(a: Attested) {
    a.identityType < 256 && a.wallet < ADDRESS_LIMIT && a.iat <= MAX_U64
      && |a.x| == |a.y| == |a.identityHash| == |a.walletHash| == 32
  }

  /** The eleven public inputs of a proof. */
  function PublicInputs(a: Attested): seq<nat>
    requires Fits(a)
  {
    [a.identityType, a.wallet,
     BigEndian(a.x[..16]), BigEndian(a.x[16..]), BigEndian(a.y[..16]), BigEndian(a.y[16..]), a.iat,
     BigEndian(a.identityHash[..16]), BigEndian(a.identityHash[16..]),
     BigEndian(a.walletHash[..16]), BigEndian(a.walletHash[16..])]
  }

  datatype Attestation = Attestation(identityType: nat, wallet: nat, x: nat, y: nat, iat: nat, identityHash: nat,
                                     walletHash: nat)

  /** The on-chain decoder, with its narrowing casts; None when the count is wrong. */
  function Decode(p: seq<nat>): Option<Attestation> {
    if |p| != 11 then None
    else
      Some(Attestation(p[0] % 256, p[1] % ADDRESS_LIMIT, Join(p[2], p[3]), Join(p[4], p[5]), p[6] % (MAX_U64 + 1),
                       Join(p[7], p[8]), Join(p[9], p[10])))
  }

  /** Nothing the circuit attests is changed by packing, joining or narrowing. */
  lemma AttestationRoundTrip(a: Attested)
    requires Fits(a)
    ensures Decode(PublicInputs(a)) == Some(Attestation(a.identityType, a.wallet, BigEndian(a.x), BigEndian(a.y), a.iat,
                                                        BigEndian(a.identityHash), BigEndian(a.walletHash)))
  {
    hide Join, BigEndian;
    JoinSplit(a.x);
    JoinSplit(a.y);
    JoinSplit(a.identityHash);
    JoinSplit(a.walletHash);
  }

  // ------------------------------------------------------------------ the public-inputs file

  const FIELD_COUNT: nat := 11

  /** The k-byte big-endian form. */
  function ToBytes(n: nat, k: nat): (s: seq<Byte>)
    ensures |s| == k
  {
    if k == 0 then [] else ToBytes(n / 256, k - 1) + [n % 256]
  }

  lemma {:induction false} BigEndianOfBytes(n: nat, k: nat)
    requires n < Pow(256, k)
    ensures BigEndian(ToBytes(n, k)) == n
  {
    if k > 0 {
      BigEndianOfBytes(n / 256, k - 1);
      assert ToBytes(n, k)[..k - 1] == ToBytes(n / 256, k - 1);
    }
  }

  /** A proof's public inputs as the prover writes them: 32 bytes each, one after the other. */
  function FileOf(p: seq<nat>): (f: seq<Byte>)
    ensures |f| == 32 * |p|
  {
    if p == [] then [] else FileOf(p[..|p| - 1]) + ToBytes(p[|p| - 1], 32)
  }

  lemma {:induction false} FieldAt(p: seq<nat>, i: nat)
    requires i < |p|
    ensures FileOf(p)[32 * i..32 * (i + 1)] == ToBytes(p[i], 32)
  {
    var n := |p| - 1;
    if i < n {
      FieldAt(p[..n], i);
      assert FileOf(p)[32 * i..32 * (i + 1)] == FileOf(p[..n])[32 * i..32 * (i + 1)];
    }
  }

  /** The clients' reading of that file; None when its length is wrong. */
  method SplitFields(inputs: seq<Byte>) returns (fields: Option<seq<nat>>)
    ensures fields.None? <==> |inputs| != FIELD_COUNT * 32
    ensures fields.Some? ==> |fields.value| == FIELD_COUNT
                             && forall i ::
                                 0 <= i < FIELD_COUNT ==> fields.value[i] == BigEndian(inputs[32 * i..32 * (i + 1)])
  {
    if |inputs| != FIELD_COUNT * 32 {
      return None;
    }
    var out: seq<nat>, i := [], 0;
    while i < |inputs|
      invariant 0 <= i <= |inputs| && i == 32 * |out|
      invariant forall j :: 0 <= j < |out| ==> out[j] == BigEndian(inputs[32 * j..32 * (j + 1)])
    {
      out := out + [BigEndian(inputs[i..i + 32])];
      i := i + 32;
    }
    fields := Some(out);
  }

  /** So reading the file of a proof gives back its public inputs. */
  lemma FileRoundTrip(p: seq<nat>, i: nat)
    requires i < |p| && forall k :: 0 <= k < |p| ==> p[k] <= MAX_U256
    ensures BigEndian(FileOf(p)[32 * i..32 * (i + 1)]) == p[i]
  {
    FieldAt(p, i);
    HalfIsPow();
    PowSquare();
    BigEndianOfBytes(p[i], 32);
  }

  lemma PowSquare()
    ensures Pow(256, 32) == Pow(256, 16) * Pow(256, 16)
  {
    PowAdd(256, 16, 16);
  }

  lemma {:induction false} PowAdd(b: nat, m: nat, n: nat)
    ensures Pow(b, m + n) == Pow(b, m) * Pow(b, n)
  {
    if n > 0 {
      PowAdd(b, m, n - 1);
      MulAssoc(Pow(b, m), Pow(b, n - 1), b);
    }
  }
}
