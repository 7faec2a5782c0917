/**
 The escape-aware string and nesting scan: what it means, the circuit's one-pass form in field
 arithmetic, the witness builder's form, and what both find in a JSON document.
 */
module Scan {
  import opened Json

  /** The modulus of the circuit's prime field. */
  const MODULUS: nat := 21888242871839275222246405745257275088548364400416034343698204186575808495617

  function ToField(n: int): nat {
    n % MODULUS
  }

  /** Where a reader stands: inside a string, after a backslash there, and how deep in brackets. */
  datatype Mark = Mark(inside: bool, escaped: bool, depth: int)

  const START := Mark(false, false, 0)

  function Step(m: Mark, c: char): Mark {
    if m.inside then
      if m.escaped then m.(escaped := false)
      else if c == BACKSLASH then m.(escaped := true)
      else if c == QUOTE then m.(inside := false)
      else m
    else if c == QUOTE then Mark(true, false, m.depth)
    else if c == '{' || c == '[' then Mark(false, false, m.depth + 1)
    else if c == '}' || c == ']' then Mark(false, false, m.depth - 1)
    else Mark(false, false, m.depth)
  }

  function Run(m: Mark, s: string): Mark {
    if s == [] then m else Step(Run(m, s[..|s| - 1]), s[|s| - 1])
  }

  /** The reader's mark before byte i of a payload; past the end it stays where the payload left it. */
  function At(payload: string, i: nat): Mark {
    Run(START, if i < |payload| then payload[..i] else payload)
  }

  // ------------------------------------------------------------------ reading on

  lemma {:induction false} RunConcat(m: Mark, s: string, t: string)
    ensures Run(m, s + t) == Run(Run(m, s), t)
  {
    if t == [] {
      assert s + t == s;
    } else {
      assert (s + t)[..|s + t| - 1] == s + t[..|t| - 1];
      RunConcat(m, s, t[..|t| - 1]);
    }
  }

  lemma RunOne(m: Mark, c: char)
    ensures Run(m, [c]) == Step(m, c)
  {
    assert [c][..0] == [];
  }

  lemma RunCons(m: Mark, c: char, s: string)
    ensures Run(m, [c] + s) == Run(Step(m, c), s)
  {
    RunConcat(m, [c], s);
    RunOne(m, c);
  }

  lemma AtStart(payload: string)
    ensures At(payload, 0) == START
  {
    assert payload[..0] == [];
  }

  lemma AtNext(payload: string, i: nat)
    requires i < |payload|
    ensures At(payload, i + 1) == Step(At(payload, i), payload[i])
  {
    assert payload[..i + 1][..i] == payload[..i];
    if i + 1 == |payload| {
      assert payload[..i + 1] == payload;
    }
  }

  /** No count exceeds the number of bytes read, and only a string interior can be escaped. */
  lemma {:induction false} RunBounds(s: string)
    ensures -|s| <= Run(START, s).depth <= |s|
    ensures Run(START, s).escaped ==> Run(START, s).inside
  {
    if s != [] {
      RunBounds(s[..|s| - 1]);
    }
  }

  /** Counting in the field agrees with counting in the integers. */
  lemma FieldCount(n: int, k: nat, bound: nat)
    requires 0 <= n + bound <= 2 * bound && k + bound < MODULUS
    ensures ToField(n) == k <==> n == k
  {
  }

  lemma FieldSum(n: int, a: int)
    ensures (ToField(n) + a) % MODULUS == ToField(n + a)
  {
  }

  // ------------------------------------------------------------------ the circuit's pass

  /**
   The scan as the circuit runs it over its fixed-size buffer: every byte is visited, `active` switches
   off at the payload's end, and nesting is counted in the field.
   */
  method ScanPayload(data: string, len: nat) returns (ok: bool, inString: seq<bool>, depthAt: seq<nat>)
    requires 0 < |data| < MODULUS && len <= |data|
    ensures |inString| == |depthAt| == |data|
    ensures forall i :: 0 <= i < |data| ==> inString[i] == At(data[..len], i).inside
    ensures forall i :: 0 <= i < |data| ==> depthAt[i] == ToField(At(data[..len], i).depth)
    ensures ok <==> data[0] == '{' && !At(data[..len], len).inside && At(data[..len], len).depth == 0
  {
    hide Run;
    var payload := data[..len];
    var strings := new bool[|data|];
    var depths := new nat[|data|];
    var active, inside, escaped, depth: nat := true, false, false, 0;
    AtStart(payload);
    for i := 0 to |data|
      invariant active == (i <= len)
      invariant Scanned(payload, i, inside, escaped, depth)
      invariant forall j :: 0 <= j < i ==> strings[j] == At(payload, j).inside
      invariant forall j :: 0 <= j < i ==> depths[j] == ToField(At(payload, j).depth)
    {
      active := active && i != len;
      var b := data[i];
      strings[i], depths[i] := inside, depth;
      if i < len {
        AtNext(payload, i);
        FieldSum(At(payload, i).depth, 1);
        FieldSum(At(payload, i).depth, -1);
      }
      RunBounds(if i + 1 < len then payload[..i + 1] else payload);
      var open := active && !inside && (b == '{' || b == '[');
      var close := active && !inside && (b == '}' || b == ']');
      depth := (depth + (if open then 1 else 0) - (if close then 1 else 0)) % MODULUS;
      var toggle := active && !escaped && b == QUOTE;
      escaped := active && inside && !escaped && b == BACKSLASH;
      inside := inside != toggle;
    }
    inString, depthAt := strings[..], depths[..];
    RunBounds(payload);
    FieldCount(At(payload, len).depth, 0, len);
    ok := data[0] == '{' && !inside && depth == 0;
  }

  /** The scan's variables after i bytes; past the end `escaped` is cleared. */
  ghost predicate Scanned(payload: string, i: nat, inside: bool, escaped: bool, depth: nat) {
    && inside == At(payload, i).inside
    && (i <= |payload| ==> escaped == At(payload, i).escaped)
    && (At(payload, i).escaped ==> inside)
    && depth == ToField(At(payload, i).depth)
  }

  // ------------------------------------------------------------------ the witness builder's pass

  /** The witness builder computes the same map over the payload alone. */
  method StringMap(payload: string) returns (out: seq<bool>)
    ensures |out| == |payload|
    ensures forall i :: 0 <= i < |payload| ==> out[i] == At(payload, i).inside
  {
    hide Run;
    var inString := new bool[|payload|];
    var inside, escaped := false, false;
    AtStart(payload);
    for i := 0 to |payload|
      invariant At(payload, i).inside == inside && At(payload, i).escaped == escaped
      invariant escaped ==> inside
      invariant forall j :: 0 <= j < i ==> inString[j] == At(payload, j).inside
    {
      AtNext(payload, i);
      inString[i] := inside;
      var b := payload[i];
      if escaped {
        escaped := false;
      } else if inside {
        if b == BACKSLASH {
          escaped := true;
        } else if b == QUOTE {
          inside := false;
        }
      } else if b == QUOTE {
        inside := true;
      }
    }
    out := inString[..];
  }
}
