/**
 The identity circuit's checks on a decoded token payload. The payload sits at the front of a
 fixed-size buffer; nothing is assumed of the bytes behind it. A failed assertion is a false result.
 */
module Circuit {
  import opened Types
  import opened Encoding
  import opened Json
  import opened Scan
  import opened Locate

  const MAX_VALUE_LEN: nat := 128
  const TS_DIGITS: nat := 10
  const NUM_TYPES: nat := 13
  const WALLET: nat := 12

  const IAT_KEY := "\"iat\":"
  const LINKED_ACCOUNTS_KEY := "\"linked_accounts\":\""
  /** Inside the stringified array every quote is written with a backslash. */
  const QUOTE_ESC := "\\\""
  const TYPE_KEY_ESC := "\\\"type\\\":\\\""
  const KEY_VALUE_SEP_ESC := "\\\":\\\""

  // ------------------------------------------------------------------ the identity table

  function TypeName(id: nat): string
    requires id < NUM_TYPES
  {
    ["email", "phone", "google_oauth", "twitter_oauth", "discord_oauth", "github_oauth", "linkedin_oauth",
     "apple_oauth", "telegram", "tiktok_oauth", "instagram_oauth", "farcaster", "wallet"][id]
  }

  function KeyName(id: nat): string
    requires id < NUM_TYPES
  {
    ["address", "number", "email", "username", "username", "username", "email",
     "email", "username", "username", "username", "username", "address"][id]
  }

  predicate CaseInsensitive(id: nat) {
    id != 1 && id != WALLET
  }

  /** Names the escaper leaves alone, told apart from structure by their first byte. */
  predicate Name(s: string) {
    s != [] && AllPlain(s) && !Structural(s[0])
  }

  lemma TableKeys(id: nat)
    requires id < NUM_TYPES
    ensures Name(KeyName(id))
  {
  }

  lemma TableTypes(id: nat)
    requires id < NUM_TYPES
    ensures Name(TypeName(id))
  {
    if id < 5 {
      TableTypesBelow(id);
    }
  }

  lemma TableTypesBelow(id: nat)
    requires id < 5
    ensures Name(TypeName(id))
  {
  }

  // ------------------------------------------------------------------ byte helpers

  predicate BytesAt(data: string, i: nat, pattern: string) {
    i + |pattern| <= |data| && data[i..i + |pattern|] == pattern
  }

  predicate IsMemberStart(data: string, i: nat) {
    1 <= i <= |data| && Boundary(data[i - 1])
  }

  predicate Digits(s: string) {
    forall i :: 0 <= i < |s| ==> '0' <= s[i] <= '9'
  }

  function Decimal(s: string): nat
    requires Digits(s)
  {
    if s == [] then 0 else Decimal(s[..|s| - 1]) * 10 + (s[|s| - 1] as int - '0' as int)
  }

  method BytesAtEq(data: string, start: nat, pattern: string) returns (ok: bool)
    ensures ok <==> BytesAt(data, start, pattern)
  {
    if start + |pattern| > |data| {
      return false;
    }
    ok := true;
    for k := 0 to |pattern|
      invariant ok <==> data[start..start + k] == pattern[..k]
    {
      assert data[start..start + k + 1] == data[start..start + k] + [data[start + k]];
      assert pattern[..k + 1] == pattern[..k] + [pattern[k]];
      ok := ok && data[start + k] == pattern[k];
    }
    assert pattern[..|pattern|] == pattern;
  }

  /** Exactly `n` decimal digits from `start`, as a number; a byte that is no digit fails the proof. */
  method ParseDecimal(data: string, start: nat, n: nat) returns (value: Option<nat>)
    requires start + n <= |data|
    ensures value == if Digits(data[start..start + n]) then Some(Decimal(data[start..start + n])) else None
  {
    var acc := 0;
    for k := 0 to n
      invariant Digits(data[start..start + k]) && acc == Decimal(data[start..start + k])
    {
      var b := data[start + k];
      if !('0' <= b <= '9') {
        assert data[start..start + n][k] == b;
        return None;
      }
      var read := data[start..start + k + 1];
      assert read == data[start..start + k] + [b];
      assert read[..k] == data[start..start + k];
      assert Digits(read) && |read| == k + 1 && read[k] == b;
      acc := acc * 10 + (b as int - '0' as int);
    }
    value := Some(acc);
  }

  // ------------------------------------------------------------------ the range flags

  /** Opening minus closing braces. */
  function Braces(s: string): int {
    if s == [] then 0
    else
      var c := s[|s| - 1];
      Braces(s[..|s| - 1]) + (if c == '{' then 1 else if c == '}' then -1 else 0)
  }

  lemma {:induction false} BracesBounds(s: string)
    ensures 0 <= Braces(s) + |s| <= 2 * |s|
  {
    if s != [] {
      BracesBounds(s[..|s| - 1]);
    }
  }

  predicate BraceFree(data: string, from: nat, to: nat) {
    forall i :: from <= i < to && i < |data| ==> data[i] != '{' && data[i] != '}'
  }

  /** What the flags are for: a flat object, inside one string with the array's start, not nested in another object. */
  ghost predicate RangeOk(data: string, len: nat, la: nat, start: nat, end: nat)
    requires la <= start <= |data| && len <= |data|
  {
    && BraceFree(data, start + 1, end)
    && (forall i :: la <= i <= end ==> At(data[..len], i).inside)
    && Braces(data[la..start]) == 0
  }

  /** The single pass with its three flags; with `enabled` off nothing is checked. */
  method FlagPass(data: string, ghost len: nat, inString: seq<bool>, la: nat, start: nat, end: nat, enabled: bool)
    returns (ok: bool)
    requires len <= |data| < MODULUS && |inString| == |data|
    requires forall i :: 0 <= i < |data| ==> inString[i] == At(data[..len], i).inside
    requires enabled ==> la <= start < end < |data|
    ensures enabled ==> (ok <==> RangeOk(data, len, la, start, end))
    ensures !enabled ==> ok
  {
    hide At;
    var inObj, inLa, beforeAcct, depth: nat := false, false, true, 0;
    ok := true;
    for i := 0 to |data|
      invariant inLa == (enabled && la < i <= end)
      invariant inObj == (enabled && start < i <= end)
      invariant beforeAcct == (i <= start)
      invariant !enabled ==> ok && depth == 0
      invariant enabled ==> depth == ToField(Counted(data, la, start, i))
      invariant enabled ==> (ok <==> Checked(data, inString, la, start, end, i))
    {
      var b := data[i];
      inLa := inLa || (enabled && i == la);
      var checkObj := inObj && i != end;
      ok := ok && !(checkObj && (b == '{' || b == '}')) && (!inLa || inString[i]);
      beforeAcct := beforeAcct && i != start;
      var counting := inLa && beforeAcct;
      if enabled {
        CountNext(data, la, start, i);
        FieldSum(Counted(data, la, start, i), 1);
        FieldSum(Counted(data, la, start, i), -1);
      }
      depth := (depth + (if counting && b == '{' then 1 else 0) - (if counting && b == '}' then 1 else 0)) % MODULUS;
      inObj := checkObj || (enabled && i == start);
      inLa := inLa && i != end;
    }
    if enabled {
      assert Counted(data, la, start, |data|) == Braces(data[la..start]);
      BracesBounds(data[la..start]);
      FieldCount(Braces(data[la..start]), 0, |data[la..start]|);
    }
    ok := ok && depth == 0;
  }

  /** The braces counted once the first i bytes are read. */
  function Counted(data: string, la: nat, start: nat, i: nat): int
    requires la <= start <= |data|
  {
    if i <= la then 0 else Braces(data[la..if i < start then i else start])
  }

  predicate Checked(data: string, inString: seq<bool>, la: nat, start: nat, end: nat, i: nat)
    requires i <= |data| == |inString|
  {
    && BraceFree(data, start + 1, if i < end then i else end)
    && forall j :: la <= j <= end && j < i ==> inString[j]
  }

  lemma CountNext(data: string, la: nat, start: nat, i: nat)
    requires la <= start <= |data| && i < |data|
    ensures Counted(data, la, start, i + 1) - Counted(data, la, start, i)
            == if la <= i < start then (if data[i] == '{' then 1 else if data[i] == '}' then -1 else 0) else 0
  {
    if la <= i < start {
      var s := data[la..i + 1];
      assert s[..|s| - 1] == data[la..i];
      assert i == la ==> data[la..i] == [];
      assert Counted(data, la, start, i + 1) == Braces(s);
      assert Counted(data, la, start, i) == Braces(data[la..i]);
    } else if i == start {
      assert i == la ==> data[la..start] == [];
    }
  }

  // ------------------------------------------------------------------ one account

  /** Prover-supplied offsets of one account object and of its type and value members. */
  datatype AccountRef = AccountRef(start: nat, end: nat, typeIdx: nat, valueIdx: nat, valueLen: nat)

  predicate Bounded(data: string, len: nat, la: nat, a: AccountRef) {
    && la <= a.start < a.end < len <= |data| && 1 <= a.start && a.end + 1 < |data|
    && data[a.start] == '{' && data[a.end] == '}'
    && (data[a.start - 1] == '[' || data[a.start - 1] == ',')
    && (data[a.end + 1] == ',' || data[a.end + 1] == ']')
  }

  predicate TypeOk(data: string, a: AccountRef, id: nat)
    requires id < NUM_TYPES
  {
    var typeStart := a.typeIdx + |TYPE_KEY_ESC|;
    var close := typeStart + |TypeName(id)|;
    && a.typeIdx > a.start && IsMemberStart(data, a.typeIdx)
    && BytesAt(data, a.typeIdx, TYPE_KEY_ESC)
    && BytesAt(data, typeStart, TypeName(id))
    && BytesAt(data, close, QUOTE_ESC)
    && close + 1 < a.end
  }

  function ValueStart(a: AccountRef, id: nat): nat
    requires id < NUM_TYPES
  {
    a.valueIdx + 2 + |KeyName(id)| + |KEY_VALUE_SEP_ESC|
  }

  predicate ValueOk(data: string, a: AccountRef, id: nat)
    requires id < NUM_TYPES
  {
    var valueStart := ValueStart(a, id);
    var close := valueStart + a.valueLen;
    && a.valueIdx > a.start && IsMemberStart(data, a.valueIdx)
    && BytesAt(data, a.valueIdx, QUOTE_ESC)
    && BytesAt(data, a.valueIdx + 2, KeyName(id))
    && BytesAt(data, a.valueIdx + 2 + |KeyName(id)|, KEY_VALUE_SEP_ESC)
    && 1 <= a.valueLen <= MAX_VALUE_LEN
    && BytesAt(data, close, QUOTE_ESC)
    && close + 1 < a.end
    && (forall k :: valueStart <= k < close && k < |data| ==> data[k] != BACKSLASH)
  }

  ghost predicate AccountOk(data: string, len: nat, la: nat, a: AccountRef, id: nat) {
    id < NUM_TYPES && Bounded(data, len, la, a) && RangeOk(data, len, la, a.start, a.end) && TypeOk(data, a, id)
      && ValueOk(data, a, id)
  }

  /** The value member's bytes. */
  function ValueOf(data: string, a: AccountRef, id: nat): (value: string)
    requires id < NUM_TYPES && ValueOk(data, a, id)
    ensures |value| == a.valueLen && BACKSLASH !in value
  {
    data[ValueStart(a, id)..ValueStart(a, id) + a.valueLen]
  }

  /** The form that is hashed: lowercased where case carries no meaning. */
  function Normalized(value: string, id: nat): string {
    if CaseInsensitive(id) || (EvmHex(value) && id == WALLET) then Lower(value) else value
  }

  // ------------------------------------------------------------------ letter case

  predicate Capital(c: char) {
    65 <= c as int <= 90
  }

  /** The same character, or one letter in its two cases. */
  predicate SameLetter(a: char, b: char) {
    a == b || (Capital(a) && b as int == a as int + 32) || (Capital(b) && a as int == b as int + 32)
  }

  predicate SameUpToCase(s: string, t: string) {
    |s| == |t| && forall i :: 0 <= i < |s| ==> SameLetter(s[i], t[i])
  }

  /** Phone numbers keep their case, and so do wallets that do not start with 0x. */
  predicate KeepsCase(id: nat, value: string)
    requires id < NUM_TYPES
  {
    TypeName(id) == "phone" || (TypeName(id) == "wallet" && !("0x" <= value))
  }

  /** The text a commitment is over: the value itself, or the value without capitals. */
  predicate CommittedText(id: nat, value: string, text: string)
    requires id < NUM_TYPES
  {
    if KeepsCase(id, value) then text == value
    else SameUpToCase(text, value) && forall i :: 0 <= i < |text| ==> !Capital(text[i])
  }

  lemma NamesTell(id: nat)
    requires id < NUM_TYPES
    ensures TypeName(id) == "phone" <==> id == 1
    ensures TypeName(id) == "wallet" <==> id == 12
  {
    if id < 5 {
      FirstNames(id);
    }
  }

  lemma FirstNames(id: nat)
    requires id < 5
    ensures TypeName(id) != "wallet" && (TypeName(id) == "phone" <==> id == 1)
  {
  }

  lemma StartsHex(value: string)
    ensures "0x" <= value <==> EvmHex(value)
  {
  }

  lemma LoweredLetter(a: char, b: char)
    ensures SameLetter(ToLower(a), a) && !Capital(ToLower(a))
    ensures ToLower(a) == ToLower(b) <==> SameLetter(a, b)
  {
  }

  /** What is hashed is that text. */
  lemma NormalText(id: nat, value: string)
    requires id < NUM_TYPES
    ensures CommittedText(id, value, Normalized(value, id))
  {
    hide TypeName, Lower, SameLetter, Capital;
    NamesTell(id);
    StartsHex(value);
    if !KeepsCase(id, value) {
      forall i | 0 <= i < |value|
        ensures SameLetter(Lower(value)[i], value[i]) && !Capital(Lower(value)[i])
      {
        LoweredLetter(value[i], value[i]);
      }
    }
  }

  const HASH_PREFIX := "p2id.identity.v1"

  /** What a commitment hashes; SHA-256 itself is not modelled, a digest stands for what was hashed. */
  function Preimage(id: nat, value: string): string
    requires id < 256
  {
    HASH_PREFIX + [id as char] + value
  }

  /** What is proven about one account slot: the commitment (empty for the zero digest) and what it is over. */
  datatype Proven = Proven(preimage: string, value: string, evmHex: bool)

  method ProveAccount(data: string, len: nat, inString: seq<bool>, la: nat, a: AccountRef, id: nat, enabled: bool)
    returns (r: Option<Proven>)
    requires 0 < |data| < MODULUS - 1 && len <= |data| && |inString| == |data|
    requires forall i :: 0 <= i < |data| ==> inString[i] == At(data[..len], i).inside
    ensures !enabled && id < NUM_TYPES ==> r == Some(Proven([], [], false))
    ensures enabled ==> (r.Some? <==> AccountOk(data, len, la, a, id))
    ensures enabled && r.Some? ==>
              var value := ValueOf(data, a, id);
              && r.value == Proven(Preimage(id, Normalized(value, id)), Normalized(value, id), EvmHex(value))
              && CommittedText(id, value, r.value.value)
              && r.value.preimage == "p2id.identity.v1" + [id as char] + r.value.value
  {
    hide At, TypeName, KeyName, Braces, Lower, CommittedText;
    if id >= NUM_TYPES {
      return None;
    }
    if enabled {
      if !Bounded(data, len, la, a) {
        return None;
      }
    }
    var ok := FlagPass(data, len, inString, la, if enabled then a.start else 0, if enabled then a.end else 0, enabled);
    if !enabled {
      return Some(Proven([], [], false));
    }
    if !ok {
      return None;
    }
    ok := CheckType(data, a, id);
    if !ok {
      return None;
    }
    ok := CheckValueKey(data, a, id);
    if !ok {
      return None;
    }
    var value := ReadValue(data, ValueStart(a, id), a.valueLen, id);
    if value.None? {
      return None;
    }
    var valueStart := ValueStart(a, id);
    var evm := a.valueLen >= 2 && data[valueStart] == '0' && data[valueStart + 1] == 'x';
    r := Some(Proven(HASH_PREFIX + [id as char] + value.value, value.value, evm));
  }

  method CheckType(data: string, a: AccountRef, id: nat) returns (ok: bool)
    requires id < NUM_TYPES
    ensures ok <==> TypeOk(data, a, id)
  {
    hide TypeName;
    if a.typeIdx <= a.start || !IsMemberStart(data, a.typeIdx) {
      return false;
    }
    var key := BytesAtEq(data, a.typeIdx, TYPE_KEY_ESC);
    var typeStart := a.typeIdx + |TYPE_KEY_ESC|;
    var name := BytesAtEq(data, typeStart, TypeName(id));
    var close := typeStart + |TypeName(id)|;
    var closed := BytesAtEq(data, close, QUOTE_ESC);
    ok := key && name && closed && close + 1 < a.end;
  }

  /** Everything about the value member but its bytes. */
  method CheckValueKey(data: string, a: AccountRef, id: nat) returns (ok: bool)
    requires id < NUM_TYPES
    ensures ok ==> ValueStart(a, id) + a.valueLen <= |data| && 1 <= a.valueLen <= MAX_VALUE_LEN
    ensures ok && (forall k ::
                    ValueStart(a, id) <= k < ValueStart(a, id) + a.valueLen && k < |data| ==> data[k] != BACKSLASH)
            <==> ValueOk(data, a, id)
  {
    hide KeyName;
    if a.valueIdx <= a.start || !IsMemberStart(data, a.valueIdx) || a.valueLen < 1 || a.valueLen > MAX_VALUE_LEN {
      return false;
    }
    var open := BytesAtEq(data, a.valueIdx, QUOTE_ESC);
    var key := BytesAtEq(data, a.valueIdx + 2, KeyName(id));
    var sep := BytesAtEq(data, a.valueIdx + 2 + |KeyName(id)|, KEY_VALUE_SEP_ESC);
    var close := ValueStart(a, id) + a.valueLen;
    var closed := BytesAtEq(data, close, QUOTE_ESC);
    ok := open && key && sep && closed && close + 1 < a.end;
  }

  /** Copy and normalise the value; a backslash in it fails the proof. */
  method ReadValue(data: string, start: nat, len: nat, id: nat) returns (value: Option<string>)
    requires 1 <= len <= MAX_VALUE_LEN && start + len <= |data|
    ensures value == if BACKSLASH in data[start..start + len] then None
            else Some(Normalized(data[start..start + len], id))
    ensures value.Some? && id < NUM_TYPES ==> CommittedText(id, data[start..start + len], value.value)
  {
    hide CommittedText;
    if id < NUM_TYPES {
      NormalText(id, data[start..start + len]);
    }
    var evm := len >= 2 && data[start] == '0' && data[start + 1] == 'x';
    assert evm == EvmHex(data[start..start + len]);
    value := CopyBytes(data[start..start + len], CaseInsensitive(id) || (evm && id == WALLET));
  }

  method CopyBytes(bytes: string, lower: bool) returns (value: Option<string>)
    requires |bytes| <= MAX_VALUE_LEN
    ensures value == if BACKSLASH in bytes then None else Some(if lower then Lower(bytes) else bytes)
  {
    var out := "";
    for k := 0 to MAX_VALUE_LEN
      invariant |out| == if k < |bytes| then k else |bytes|
      invariant BACKSLASH !in bytes[..|out|]
      invariant out == if lower then Lower(bytes[..|out|]) else bytes[..|out|]
    {
      if k < |bytes| {
        var b := bytes[k];
        if b == BACKSLASH {
          return None;
        }
        assert bytes[..k + 1] == bytes[..k] + [b];
        assert bytes[..k + 1][..k] == bytes[..k];
        out := out + [if lower then ToLower(b) else b];
      }
    }
    assert bytes[..|bytes|] == bytes;
    value := Some(out);
  }

  // ------------------------------------------------------------------ the whole circuit

  datatype Offsets = Offsets(iatIdx: nat, laIdx: nat, account: AccountRef, wallet: AccountRef)

  /** The public outputs: the issue time and the two commitments; an unused wallet slot's is the zero digest. */
  datatype Claim = Claim(iat: nat, identity: string, wallet: string)

  predicate TopLevelAt(payload: string, i: nat) {
    !At(payload, i).inside && At(payload, i).depth == 1
  }

  predicate IatOk(data: string, len: nat, i: nat)
    requires len <= |data|
  {
    && i + |IAT_KEY| + TS_DIGITS < len
    && TopLevelAt(data[..len], i) && IsMemberStart(data, i) && BytesAt(data, i, IAT_KEY)
    && Digits(data[i + |IAT_KEY|..i + |IAT_KEY| + TS_DIGITS])
    && (data[i + |IAT_KEY| + TS_DIGITS] == ',' || data[i + |IAT_KEY| + TS_DIGITS] == '}')
  }

  function IatOf(data: string, len: nat, i: nat): nat
    requires len <= |data| && IatOk(data, len, i)
  {
    Decimal(data[i + |IAT_KEY|..i + |IAT_KEY| + TS_DIGITS])
  }

  predicate LinkedAccountsOk(data: string, len: nat, i: nat)
    requires len <= |data|
  {
    && i < |data| && TopLevelAt(data[..len], i) && IsMemberStart(data, i) && BytesAt(data, i, LINKED_ACCOUNTS_KEY)
    && i + |LINKED_ACCOUNTS_KEY| < |data| && data[i + |LINKED_ACCOUNTS_KEY|] == '['
  }

  ghost predicate Accepts(data: string, len: nat, off: Offsets, id: nat, wallet: nat) {
    && 0 < len <= |data| && data[0] == '{' && !At(data[..len], len).inside && At(data[..len], len).depth == 0
    && IatOk(data, len, off.iatIdx) && LinkedAccountsOk(data, len, off.laIdx)
    && AccountOk(data, len, off.laIdx + |LINKED_ACCOUNTS_KEY|, off.account, id)
    && (off.wallet.valueLen == 0 ==> wallet == 0)
    && (off.wallet.valueLen != 0 ==>
          && AccountOk(data, len, off.laIdx + |LINKED_ACCOUNTS_KEY|, off.wallet, WALLET)
          && AddressOf(ValueOf(data, off.wallet, WALLET)) == Some(wallet))
  }

  ghost function ClaimOf(data: string, len: nat, off: Offsets, id: nat, wallet: nat): Claim
    requires Accepts(data, len, off, id, wallet)
  {
    Claim(IatOf(data, len, off.iatIdx),
          Preimage(id, Normalized(ValueOf(data, off.account, id), id)),
          if off.wallet.valueLen == 0 then []
          else Preimage(WALLET, Normalized(ValueOf(data, off.wallet, WALLET), WALLET)))
  }

  /** The base-16 fold; a byte that is no lowercase hex digit fails the proof. */
  method FoldHex(digits: string) returns (decoded: Option<nat>)
    ensures decoded == if HexDigits(digits) then Some(HexValue(digits) % MODULUS) else None
  {
    var acc: nat := 0;
    for k := 0 to |digits|
      invariant HexDigits(digits[..k]) && acc == HexValue(digits[..k]) % MODULUS
    {
      var b := digits[k];
      if !IsHex(b) {
        return None;
      }
      assert digits[..k + 1][..k] == digits[..k];
      FieldShift(HexValue(digits[..k]), DigitValue(b));
      acc := (acc * 16 + DigitValue(b)) % MODULUS;
    }
    assert digits[..|digits|] == digits;
    decoded := Some(acc);
  }

  lemma FieldShift(n: nat, d: nat)
    ensures ((n % MODULUS) * 16 + d) % MODULUS == (n * 16 + d) % MODULUS
  {
    assert n == n / MODULUS * MODULUS + n % MODULUS;
    assert n * 16 + d == (n % MODULUS) * 16 + d + MODULUS * (n / MODULUS * 16);
    ModCycle((n % MODULUS) * 16 + d, n / MODULUS * 16);
  }

  lemma ModCycle(a: nat, k: nat)
    ensures (a + MODULUS * k) % MODULUS == a % MODULUS
  {
  }

  /** The wallet slot and the public `wallet` input must agree. */
  method CheckWallet(slot: Proven, ghost value: string, valueLen: nat, hasWallet: bool, wallet: nat) returns (ok: bool)
    requires hasWallet ==>
               slot.value == Normalized(value, WALLET) && slot.evmHex == EvmHex(value) && valueLen == |value|
    requires !hasWallet ==> !slot.evmHex
    ensures ok <==> if hasWallet then AddressOf(value) == Some(wallet) else wallet == 0
  {
    hide HexValue, Lower;
    var isEvm := hasWallet && slot.evmHex;
    if !isEvm {
      return wallet == 0;
    }
    if valueLen != EVM_ADDRESS_LEN {
      return false;
    }
    var decoded := FoldHex(slot.value[2..]);
    ok := decoded == Some(wallet);
    if HexDigits(Lower(value)[2..]) {
      AddressFits(value);
    }
  }

  /**
   The circuit on a payload: accepted exactly under the conditions above, and then what it outputs is the
   claim they describe.
   */
  method Prove(data: string, len: nat, off: Offsets, id: nat, wallet: nat) returns (claim: Option<Claim>)
    requires 0 < |data| < MODULUS - 1 && len <= |data|
    ensures claim.Some? <==> Accepts(data, len, off, id, wallet)
    ensures claim.Some? ==> claim.value == ClaimOf(data, len, off, id, wallet)
  {
    hide At, TypeOk, ValueOk, RangeOk, Bounded, Normalized, AddressOf, EvmHex, Decimal, Digits, Boundary;
    var ok, inString, depthAt := ScanPayload(data, len);
    if !ok {
      return None;
    }
    var iat := ReadIat(data, len, inString, depthAt, off.iatIdx);
    if iat.None? {
      return None;
    }
    ok := FindAccounts(data, len, inString, depthAt, off.laIdx);
    if !ok {
      return None;
    }
    var la := off.laIdx + |LINKED_ACCOUNTS_KEY|;
    var account := ProveAccount(data, len, inString, la, off.account, id, true);
    if account.None? {
      return None;
    }
    var hasWallet := off.wallet.valueLen != 0;
    var slot := ProveAccount(data, len, inString, la, off.wallet, WALLET, hasWallet);
    if slot.None? {
      return None;
    }
    ghost var value := if hasWallet then ValueOf(data, off.wallet, WALLET) else [];
    ok := CheckWallet(slot.value, value, off.wallet.valueLen, hasWallet, wallet);
    if ok {
      claim := Some(Claim(iat.value, account.value.preimage, slot.value.preimage));
    } else {
      claim := None;
    }
  }

  method ReadIat(data: string, len: nat, inString: seq<bool>, depthAt: seq<nat>, idx: nat) returns (iat: Option<nat>)
    requires 0 < |data| < MODULUS - 1 && len <= |data| && |inString| == |depthAt| == |data|
    requires forall i :: 0 <= i < |data| ==> inString[i] == At(data[..len], i).inside
    requires forall i :: 0 <= i < |data| ==> depthAt[i] == ToField(At(data[..len], i).depth)
    ensures iat == if IatOk(data, len, idx) then Some(IatOf(data, len, idx)) else None
  {
    hide At, Decimal;
    if idx + |IAT_KEY| + TS_DIGITS >= len {
      return None;
    }
    DepthOne(data[..len], idx);
    if inString[idx] || depthAt[idx] != 1 || !IsMemberStart(data, idx) {
      return None;
    }
    var key := BytesAtEq(data, idx, IAT_KEY);
    if !key {
      return None;
    }
    iat := ParseDecimal(data, idx + |IAT_KEY|, TS_DIGITS);
    var term := data[idx + |IAT_KEY| + TS_DIGITS];
    if term != ',' && term != '}' {
      iat := None;
    }
  }

  method FindAccounts(data: string, len: nat, inString: seq<bool>, depthAt: seq<nat>, idx: nat) returns (ok: bool)
    requires 0 < |data| < MODULUS - 1 && len <= |data| && |inString| == |depthAt| == |data|
    requires forall i :: 0 <= i < |data| ==> inString[i] == At(data[..len], i).inside
    requires forall i :: 0 <= i < |data| ==> depthAt[i] == ToField(At(data[..len], i).depth)
    ensures ok <==> LinkedAccountsOk(data, len, idx)
  {
    hide At;
    if idx >= |data| {
      return false;
    }
    DepthOne(data[..len], idx);
    if inString[idx] || depthAt[idx] != 1 || !IsMemberStart(data, idx) {
      return false;
    }
    ok := BytesAtEq(data, idx, LINKED_ACCOUNTS_KEY);
    ok := ok && idx + |LINKED_ACCOUNTS_KEY| < |data| && data[idx + |LINKED_ACCOUNTS_KEY|] == '[';
  }

  /** The field's 1 is the integer 1. */
  lemma DepthOne(payload: string, i: nat)
    requires |payload| + 1 < MODULUS
    ensures ToField(At(payload, i).depth) == 1 <==> At(payload, i).depth == 1
  {
    var s := if i < |payload| then payload[..i] else payload;
    RunBounds(s);
    FieldCount(At(payload, i).depth, 1, |s|);
  }
}
