/**
 The witness builder: it searches a decoded payload for the offsets the circuit is going to check. A
 thrown InputError is None. Each search is a function; the loops are proved to compute it.
 */
module Witness {
  import opened Types
  import opened Encoding
  import opened Json
  import opened Scan
  import opened Locate
  import opened Circuit

  // ------------------------------------------------------------------ searching

  /** Buffer.indexOf: the first occurrence at or after `pos`. */
  function IndexOf(hay: string, key: string, pos: nat): (r: Option<nat>)
    requires key != []
    ensures r.None? ==> forall i: nat :: i >= pos ==> !BytesAt(hay, i, key)
    ensures r.Some? ==> r.value >= pos && BytesAt(hay, r.value, key)
    ensures r.Some? ==> forall i: nat :: pos <= i < r.value ==> !BytesAt(hay, i, key)
    decreases |hay| - pos
  {
    if pos + |key| > |hay| then None else if BytesAt(hay, pos, key) then Some(pos) else IndexOf(hay, key, pos + 1)
  }

  /** A key outside every string, after a brace or comma. */
  predicate TopHit(payload: string, key: string, i: nat) {
    i < |payload| && BytesAt(payload, i, key) && !At(payload, i).inside && IsMemberStart(payload, i)
  }

  /** The first such place. */
  function FirstTop(payload: string, key: string, pos: nat): (r: Option<nat>)
    ensures r.None? ==> forall i: nat :: i >= pos ==> !TopHit(payload, key, i)
    ensures r.Some? ==> r.value >= pos && TopHit(payload, key, r.value)
    ensures r.Some? ==> forall i: nat :: pos <= i < r.value ==> !TopHit(payload, key, i)
    decreases |payload| - pos
  {
    if pos >= |payload| then None
    else if TopHit(payload, key, pos) then Some(pos)
    else FirstTop(payload, key, pos + 1)
  }

  method FindTopLevel(payload: string, inString: seq<bool>, key: string) returns (r: Option<nat>)
    requires |inString| == |payload| && forall i :: 0 <= i < |payload| ==> inString[i] == At(payload, i).inside
    requires key != []
    ensures r == FirstTop(payload, key, 0)
  {
    hide At;
    var pos := 0;
    while true
      invariant pos <= |payload|
      invariant forall i: nat :: i < pos ==> !TopHit(payload, key, i)
      decreases |payload| - pos
    {
      var found := IndexOf(payload, key, pos);
      if found.None? {
        return None;
      }
      var i := found.value;
      if !inString[i] && i > 0 && Boundary(payload[i - 1]) {
        assert TopHit(payload, key, i);
        return found;
      }
      pos := i + 1;
    }
  }

  /** A key within hay[start..end), after a brace or comma. */
  predicate MemberHit(hay: string, key: string, start: nat, end: nat, i: nat) {
    start <= i && i + |key| <= end && BytesAt(hay, i, key) && IsMemberStart(hay, i)
  }

  function FirstMember(hay: string, key: string, start: nat, end: nat): (r: Option<nat>)
    ensures r.None? ==> forall i: nat :: !MemberHit(hay, key, start, end, i)
    ensures r.Some? ==> MemberHit(hay, key, start, end, r.value)
    ensures r.Some? ==> forall i: nat :: i < r.value ==> !MemberHit(hay, key, start, end, i)
    decreases end - start
  {
    if start >= end then (if MemberHit(hay, key, start, end, start) then Some(start) else None)
    else if MemberHit(hay, key, start, end, start) then Some(start)
    else
      assert forall i: nat :: MemberHit(hay, key, start, end, i) <==> MemberHit(hay, key, start + 1, end, i);
      FirstMember(hay, key, start + 1, end)
  }

  method FindMember(hay: string, key: string, start: nat, end: nat) returns (r: Option<nat>)
    requires key != []
    ensures r == FirstMember(hay, key, start, end)
  {
    var i := IndexOf(hay, key, start);
    while i.Some? && i.value + |key| <= end
      invariant i.Some? ==> i.value >= start && BytesAt(hay, i.value, key)
      invariant forall j: nat :: (i.None? || j < i.value) ==> !MemberHit(hay, key, start, end, j)
      decreases if i.Some? then |hay| + 1 - i.value else 0
    {
      if i.value > 0 && Boundary(hay[i.value - 1]) {
        assert MemberHit(hay, key, start, end, i.value);
        return i;
      }
      i := IndexOf(hay, key, i.value + 1);
    }
    r := None;
  }

  // ------------------------------------------------------------------ one account

  function EscQuoted(s: string): string {
    QUOTE_ESC + s + QUOTE_ESC
  }

  function Pattern(key: string, value: string): (p: string)
    ensures p != []
  {
    EscQuoted(key) + ":" + EscQuoted(value)
  }

  /** An object of the array's text, from a brace to the next closing brace. */
  datatype Span = Span(start: nat, end: nat)

  function NextObject(payload: string, pos: nat, laEnd: nat): (r: Option<Span>)
    ensures r.Some? ==> pos <= r.value.start < r.value.end < laEnd && r.value.end < |payload|
  {
    match IndexOf(payload, "{", pos)
    case None => None
    case Some(start) =>
      if start >= laEnd then None
      else
        match IndexOf(payload, "}", start)
        case None => None
        case Some(end) => if end >= laEnd then None else Some(Span(start, end))
  }

  predicate Includes(hay: string, key: string)
    requires key != []
  {
    IndexOf(hay, key, 0).Some?
  }

  /** The first object that contains both patterns. */
  function Chosen(payload: string, pos: nat, laEnd: nat, typePat: string, valuePat: string): (r: Option<Span>)
    requires typePat != [] && valuePat != []
    ensures r.Some? ==> r.value.start < r.value.end < |payload|
    decreases laEnd - pos
  {
    match NextObject(payload, pos, laEnd)
    case None => None
    case Some(span) =>
      var obj := payload[span.start..span.end + 1];
      if Includes(obj, typePat) && Includes(obj, valuePat) then Some(span)
      else Chosen(payload, span.end + 1, laEnd, typePat, valuePat)
  }

  /** The chosen object with the first member hits of both patterns in it. */
  function AccountIn(payload: string, span: Option<Span>, typePat: string, valuePat: string,
                     valueLen: nat): Option<AccountRef>
  {
    if span.None? then None
    else
      match FirstMember(payload, typePat, span.value.start, span.value.end)
      case None => None
      case Some(t) =>
        match FirstMember(payload, valuePat, span.value.start, span.value.end)
        case None => None
        case Some(v) => Some(AccountRef(span.value.start, span.value.end, t, v, valueLen))
  }

  function AccountAt(payload: string, la: nat, laEnd: nat, typeName: string, key: string,
                     value: string): Option<AccountRef>
  {
    var typePat, valuePat := Pattern("type", typeName), Pattern(key, value);
    AccountIn(payload, Chosen(payload, la, laEnd, typePat, valuePat), typePat, valuePat, |value|)
  }

  method LocateAccount(payload: string, la: nat, laEnd: nat, typeName: string, key: string, value: string)
    returns (r: Option<AccountRef>)
    ensures r == AccountAt(payload, la, laEnd, typeName, key, value)
  {
    hide NextObject, Includes, Pattern, FirstMember;
    var typePat, valuePat := Pattern("type", typeName), Pattern(key, value);
    var pos := la;
    while true
      invariant Chosen(payload, la, laEnd, typePat, valuePat) == Chosen(payload, pos, laEnd, typePat, valuePat)
      decreases laEnd - pos
    {
      var span := NextObject(payload, pos, laEnd);
      if span.None? {
        return None;
      }
      var start, end := span.value.start, span.value.end;
      var obj := payload[start..end + 1];
      if Includes(obj, typePat) && Includes(obj, valuePat) {
        var t := FindMember(payload, typePat, start, end);
        if t.None? {
          return None;
        }
        var v := FindMember(payload, valuePat, start, end);
        return if v.None? then None else Some(AccountRef(start, end, t.value, v.value, |value|));
      }
      pos := end + 1;
    }
  }

  // ------------------------------------------------------------------ the whole witness

  const NO_ACCOUNT := AccountRef(0, 0, 0, 0, 0)

  /** The first byte at or after `la` outside every string. */
  function StringEnd(payload: string, la: nat): (end: nat)
    requires la <= |payload|
    ensures la <= end <= |payload| && (forall i :: la <= i < end ==> At(payload, i).inside)
    ensures end < |payload| ==> !At(payload, end).inside
    decreases |payload| - la
  {
    if la < |payload| && At(payload, la).inside then StringEnd(payload, la + 1) else la
  }

  predicate InLimits(value: string) {
    1 <= |value| <= MAX_VALUE_LEN
  }

  /** The offsets of a request and the wallet field announced with them. */
  datatype Built = Built(off: Offsets, wallet: nat, iat: Option<nat>)

  const MAX_HEADER_B64_LEN: nat := 128
  const MAX_B64_LEN: nat := 8000

  /** Number() of the up to ten bytes after the key: None stands for whatever it makes of other bytes. */
  function IatRead(payload: string, idx: nat): Option<nat>
    requires idx + |IAT_KEY| <= |payload|
  {
    var from := idx + |IAT_KEY|;
    var text := payload[from..if from + TS_DIGITS < |payload| then from + TS_DIGITS else |payload|];
    if Digits(text) then Some(Decimal(text)) else None
  }

  /** A wallet is bound when one is requested; an empty one is none. */
  predicate UsesWallet(wallet: Option<string>) {
    wallet.Some? && wallet.value != []
  }

  /** The second slot's offsets, all zero without a wallet. */
  function WalletSlot(payload: string, la: nat, laEnd: nat, wallet: Option<string>): Option<AccountRef> {
    if !UsesWallet(wallet) then Some(NO_ACCOUNT)
    else if !InLimits(wallet.value) then None
    else AccountAt(payload, la, laEnd, TypeName(WALLET), KeyName(WALLET), wallet.value)
  }

  /** The array's text: where its string starts and stops. */
  function ArraySpan(payload: string): (r: Option<(nat, nat, nat)>)
    ensures r.Some? ==> r.value.1 <= |payload|
  {
    match FirstTop(payload, LINKED_ACCOUNTS_KEY, 0)
    case None => None
    case Some(idx) => var la := idx + |LINKED_ACCOUNTS_KEY|; Some((idx, la, StringEnd(payload, la)))
  }

  function Build(payload: string, id: nat, value: string, wallet: Option<string>): Option<Built> {
    if id >= NUM_TYPES || !InLimits(value) then None
    else
      match ArraySpan(payload)
      case None => None
      case Some((idx, la, laEnd)) =>
        match AccountAt(payload, la, laEnd, TypeName(id), KeyName(id), value)
        case None => None
        case Some(account) =>
          match WalletSlot(payload, la, laEnd, wallet)
          case None => None
          case Some(slot) =>
            match FirstTop(payload, IAT_KEY, 0)
            case None => None
            case Some(iatIdx) =>
              match WalletField(wallet)
              case None => None
              case Some(field) => Some(Built(Offsets(iatIdx, idx, account, slot), field, IatRead(payload, iatIdx)))
  }

  /** `headerLen` and `encodedLen` are the lengths of the token's two encoded segments. */
  method BuildWitness(payload: string, headerLen: nat, encodedLen: nat, id: nat, value: string, wallet: Option<string>)
    returns (r: Option<Built>)
    ensures r == if headerLen <= MAX_HEADER_B64_LEN && encodedLen <= MAX_B64_LEN then Build(payload, id, value, wallet)
                 else None
  {
    hide At, AccountAt, FirstTop, StringEnd, TypeName, KeyName, WalletField;
    if id >= NUM_TYPES || !InLimits(value) || headerLen > MAX_HEADER_B64_LEN || encodedLen > MAX_B64_LEN {
      return None;
    }
    var inString := StringMap(payload);
    var laIdx := FindTopLevel(payload, inString, LINKED_ACCOUNTS_KEY);
    if laIdx.None? {
      return None;
    }
    var la := laIdx.value + |LINKED_ACCOUNTS_KEY|;
    var laEnd := la;
    while laEnd < |payload| && inString[laEnd]
      invariant la <= laEnd <= |payload|
      invariant forall i :: la <= i < laEnd ==> At(payload, i).inside
    {
      laEnd := laEnd + 1;
    }
    EndIsUnique(payload, la, laEnd);
    var account := LocateAccount(payload, la, laEnd, TypeName(id), KeyName(id), value);
    if account.None? {
      return None;
    }
    var slot := NO_ACCOUNT;
    if UsesWallet(wallet) {
      if !InLimits(wallet.value) {
        return None;
      }
      var found := LocateAccount(payload, la, laEnd, TypeName(WALLET), KeyName(WALLET), wallet.value);
      if found.None? {
        return None;
      }
      slot := found.value;
    }
    var iatIdx := FindTopLevel(payload, inString, IAT_KEY);
    var field := WalletField(wallet);
    if iatIdx.None? || field.None? {
      return None;
    }
    var iat := ReadNumber(payload, iatIdx.value);
    r := Some(Built(Offsets(iatIdx.value, laIdx.value, account.value, slot), field.value, iat));
  }

  method ReadNumber(payload: string, idx: nat) returns (n: Option<nat>)
    requires idx + |IAT_KEY| <= |payload|
    ensures n == IatRead(payload, idx)
  {
    var from := idx + |IAT_KEY|;
    var to := if from + TS_DIGITS < |payload| then from + TS_DIGITS else |payload|;
    assert payload[from..from + (to - from)] == payload[from..to];
    n := ParseDecimal(payload, from, to - from);
  }

  lemma EndIsUnique(payload: string, la: nat, end: nat)
    requires la <= end <= |payload| && (forall i :: la <= i < end ==> At(payload, i).inside)
    requires end < |payload| ==> !At(payload, end).inside
    ensures StringEnd(payload, la) == end
  {
  }

  // ------------------------------------------------------------------ the builder's own table

  /** What the builder knows of a type name: its number and the key of its value. */
  function BuilderSpec(name: string): Option<(nat, string)> {
    if name == "email" then Some((0, "address"))
    else if name == "phone" then Some((1, "number"))
    else if name == "google_oauth" then Some((2, "email"))
    else if name == "twitter_oauth" then Some((3, "username"))
    else if name == "discord_oauth" then Some((4, "username"))
    else if name == "github_oauth" then Some((5, "username"))
    else if name == "linkedin_oauth" then Some((6, "email"))
    else if name == "apple_oauth" then Some((7, "email"))
    else if name == "telegram" then Some((8, "username"))
    else if name == "tiktok_oauth" then Some((9, "username"))
    else if name == "instagram_oauth" then Some((10, "username"))
    else if name == "farcaster" then Some((11, "username"))
    else if name == "wallet" then Some((12, "address"))
    else None
  }

  /** The builder's table and the circuit's agree, so no two types share a name. */
  lemma TablesAgree(id: nat)
    requires id < NUM_TYPES
    ensures BuilderSpec(TypeName(id)) == Some((id, KeyName(id)))
  {
    if id < 6 {
      FirstTypesAgree(id);
    }
  }

  lemma FirstTypesAgree(id: nat)
    requires id < 6
    ensures BuilderSpec(TypeName(id)) == Some((id, KeyName(id)))
  {
  }
}
