/**
 The storage-layout checker for new vault implementations: canonical type descriptions, the comparison of
 a candidate with a baseline, and what an answer without errors means. Slots and sizes are numbers; the
 description of a type is the very text the checker compares.
 */
module Layout {
  import opened Types

  datatype Var = Var(name: string, slot: nat, offset: nat, typeId: string)

  /** A type's entry, by the field that decides how it is described. */
  datatype TypeInfo =
    | Mapping(name: string, bytes: nat, key: string, value: string)
    | DynamicArray(name: string, bytes: nat, base: string)
    | Struct(name: string, bytes: nat, members: seq<Var>)
    | FixedArray(name: string, bytes: nat, base: string)
    | Plain(name: string, bytes: nat)

  datatype Layout = Layout(storage: seq<Var>, types: map<string, TypeInfo>)

  // ------------------------------------------------------------------ numerals

  function Digit(d: nat): char
    requires d < 10
  {
    "0123456789"[d]
  }

  predicate IsDigit(c: char) {
    '0' <= c <= '9'
  }

  function Dec(n: nat): string {
    if n < 10 then [Digit(n)] else Dec(n / 10) + [Digit(n % 10)]
  }

  /** Not a digit next, so a numeral before it is over. */
  predicate NumberEnds(r: string) {
    r == [] || !IsDigit(r[0])
  }

  lemma DigitInjective(m: nat, n: nat)
    requires m < 10 && n < 10
    ensures IsDigit(Digit(m)) && (Digit(m) == Digit(n) ==> m == n)
  {
  }

  lemma {:induction false} DecDigits(n: nat)
    ensures Dec(n) != [] && forall i :: 0 <= i < |Dec(n)| ==> IsDigit(Dec(n)[i])
    ensures n >= 10 ==> |Dec(n)| > 1
  {
    hide Digit;
    DigitInjective(n % 10, 0);
    if n >= 10 {
      DecDigits(n / 10);
    }
  }

  lemma {:induction false} DecInjective(m: nat, n: nat)
    requires Dec(m) == Dec(n)
    ensures m == n
  {
    hide Digit;
    DecDigits(m);
    DecDigits(n);
    DigitInjective(m % 10, n % 10);
    assert Dec(m)[|Dec(m)| - 1] == Digit(m % 10) && Dec(n)[|Dec(n)| - 1] == Digit(n % 10);
    if m >= 10 && n >= 10 {
      assert Dec(m)[..|Dec(m)| - 1] == Dec(m / 10) && Dec(n)[..|Dec(n)| - 1] == Dec(n / 10);
      DecInjective(m / 10, n / 10);
    }
  }

  lemma DecPrefix(m: nat, n: nat, r: string, r': string)
    requires Dec(m) + r == Dec(n) + r' && NumberEnds(r) && NumberEnds(r')
    ensures m == n && r == r'
  {
    hide Dec;
    var s := Dec(m) + r;
    DecDigits(m);
    DecDigits(n);
    assert |Dec(m)| < |s| ==> s[|Dec(m)|] == r[0];
    assert |Dec(n)| < |s| ==> s[|Dec(n)|] == r'[0];
    assert forall i :: 0 <= i < |Dec(m)| ==> s[i] == Dec(m)[i];
    assert forall i :: 0 <= i < |Dec(n)| ==> s[i] == Dec(n)[i];
    assert |Dec(m)| == |Dec(n)|;
    assert Dec(m) == s[..|Dec(m)|] == Dec(n);
    DecInjective(m, n);
    assert r == s[|Dec(m)|..] == r';
  }

  /** Text up to the first of a character it does not contain. */
  lemma UntilChar(a: string, b: string, c: char, r: string, r': string)
    requires a + [c] + r == b + [c] + r' && c !in a && c !in b
    ensures a == b && r == r'
  {
    var s := a + [c] + r;
    assert s[|a|] == c && s[|b|] == c;
    assert forall i :: 0 <= i < |a| ==> s[i] == a[i];
    assert forall i :: 0 <= i < |b| ==> s[i] == b[i];
    assert a == s[..|a|] && b == s[..|b|];
    assert r == s[|a| + 1..] && r' == s[|b| + 1..];
  }

  // ------------------------------------------------------------------ shapes and their text

  /** What a type is, as far as its description tells: a fixed-size array is a name and a size. */
  datatype Shape =
    | Unknown(id: string)
    | MapOf(key: Shape, value: Shape)
    | ListOf(base: Shape)
    | StructOf(fields: seq<Field>)
    | Leaf(name: string, bytes: nat)

  datatype Field = Field(name: string, slot: nat, offset: nat, shape: Shape)

  function Text(s: Shape): string
    decreases s, 1
  {
    match s
    case Unknown(id) => id
    case MapOf(k, v) => "mapping(" + Text(k) + " => " + Text(v) + ")"
    case ListOf(b) => Text(b) + "[]"
    case StructOf(fs) => "struct{" + FieldsText(fs) + "}"
    case Leaf(name, bytes) => name + "/" + Dec(bytes)
  }

  function FieldText(f: Field): string
    decreases f, 2
  {
    f.name + "@" + Dec(f.slot) + "+" + Dec(f.offset) + ":" + Text(f.shape)
  }

  function FieldsText(fs: seq<Field>): string
    decreases fs, 3
  {
    if fs == [] then []
    else if |fs| == 1 then FieldText(fs[0])
    else FieldText(fs[0]) + "," + FieldsText(fs[1..])
  }

  /** Every referenced type is smaller, so descriptions end. */
  ghost predicate Acyclic(l: Layout, rank: map<string, nat>) {
    forall id :: id in l.types ==> id in rank && RefsBelow(l, rank, l.types[id], id)
  }

  ghost predicate RefsBelow(l: Layout, rank: map<string, nat>, t: TypeInfo, id: string) {
    match t
    case Mapping(_, _, k, v) => Below(l, rank, k, id) && Below(l, rank, v, id)
    case DynamicArray(_, _, b) => Below(l, rank, b, id)
    case FixedArray(_, _, b) => Below(l, rank, b, id)
    case Struct(_, _, ms) => forall i :: 0 <= i < |ms| ==> Below(l, rank, ms[i].typeId, id)
    case Plain(_, _) => true
  }

  ghost predicate Below(l: Layout, rank: map<string, nat>, a: string, b: string) {
    a in l.types ==> a in rank && b in rank && rank[a] < rank[b]
  }

  ghost function Rank(l: Layout, rank: map<string, nat>, id: string): nat
    requires Acyclic(l, rank)
  {
    if id in l.types then rank[id] + 1 else 0
  }

  /** The checker's description of a type. */
  function CanonicalType(l: Layout, id: string, ghost rank: map<string, nat>): string
    requires Acyclic(l, rank)
    decreases Rank(l, rank, id), 0
  {
    if id !in l.types then id
    else
      match l.types[id]
      case Mapping(_, _, k, v) => "mapping(" + CanonicalType(l, k, rank) + " => " + CanonicalType(l, v, rank) + ")"
      case DynamicArray(_, _, b) => CanonicalType(l, b, rank) + "[]"
      case Struct(_, _, ms) => "struct{" + MembersText(l, ms, rank, id) + "}"
      case FixedArray(name, bytes, _) => name + "/" + Dec(bytes)
      case Plain(name, bytes) => name + "/" + Dec(bytes)
  }

  function MembersText(l: Layout, ms: seq<Var>, ghost rank: map<string, nat>, ghost id: string): string
    requires Acyclic(l, rank) && id in l.types && forall i :: 0 <= i < |ms| ==> Below(l, rank, ms[i].typeId, id)
    decreases Rank(l, rank, id) - 1, |ms| + 1
  {
    if ms == [] then []
    else
      var m := ms[0];
      assert Below(l, rank, m.typeId, id);
      var first := m.name + "@" + Dec(m.slot) + "+" + Dec(m.offset) + ":" + CanonicalType(l, m.typeId, rank);
      if |ms| == 1 then first else first + "," + MembersText(l, ms[1..], rank, id)
  }

  function ShapeOf(l: Layout, id: string, ghost rank: map<string, nat>): Shape
    requires Acyclic(l, rank)
    decreases Rank(l, rank, id), 0
  {
    if id !in l.types then Unknown(id)
    else
      match l.types[id]
      case Mapping(_, _, k, v) => MapOf(ShapeOf(l, k, rank), ShapeOf(l, v, rank))
      case DynamicArray(_, _, b) => ListOf(ShapeOf(l, b, rank))
      case Struct(_, _, ms) => StructOf(FieldsOf(l, ms, rank, id))
      case FixedArray(name, bytes, _) => Leaf(name, bytes)
      case Plain(name, bytes) => Leaf(name, bytes)
  }

  function FieldsOf(l: Layout, ms: seq<Var>, ghost rank: map<string, nat>, ghost id: string): (fs: seq<Field>)
    requires Acyclic(l, rank) && id in l.types && forall i :: 0 <= i < |ms| ==> Below(l, rank, ms[i].typeId, id)
    ensures |fs| == |ms|
    decreases Rank(l, rank, id) - 1, |ms| + 1
  {
    if ms == [] then []
    else
      assert Below(l, rank, ms[0].typeId, id);
      [Field(ms[0].name, ms[0].slot, ms[0].offset, ShapeOf(l, ms[0].typeId, rank))] + FieldsOf(l, ms[1..], rank, id)
  }

  /** The description is the text of the shape. */
  lemma {:induction false} CanonicalIsText(l: Layout, id: string, rank: map<string, nat>)
    requires Acyclic(l, rank)
    ensures CanonicalType(l, id, rank) == Text(ShapeOf(l, id, rank))
    decreases Rank(l, rank, id), 0
  {
    hide Dec;
    if id in l.types {
      match l.types[id]
      case Mapping(_, _, k, v) =>
        CanonicalIsText(l, k, rank);
        CanonicalIsText(l, v, rank);
      case DynamicArray(_, _, b) => CanonicalIsText(l, b, rank);
      case Struct(_, _, ms) => MembersAreFields(l, ms, rank, id);
      case FixedArray(_, _, _) =>
      case Plain(_, _) =>
    }
  }

  lemma {:induction false} MembersAreFields(l: Layout, ms: seq<Var>, rank: map<string, nat>, id: string)
    requires Acyclic(l, rank) && id in l.types && forall i :: 0 <= i < |ms| ==> Below(l, rank, ms[i].typeId, id)
    ensures MembersText(l, ms, rank, id) == FieldsText(FieldsOf(l, ms, rank, id))
    decreases Rank(l, rank, id) - 1, |ms| + 1
  {
    hide Dec, Text, ShapeOf, CanonicalType;
    if ms != [] {
      CanonicalIsText(l, ms[0].typeId, rank);
      MembersAreFields(l, ms[1..], rank, id);
      var fs := FieldsOf(l, ms, rank, id);
      assert fs[1..] == FieldsOf(l, ms[1..], rank, id);
    }
  }

  // ------------------------------------------------------------------ equal texts, equal shapes

  predicate NameChar(c: char) {
    'a' <= c <= 'z' || 'A' <= c <= 'Z' || IsDigit(c) || c == '_' || c == '$'
  }

  predicate CleanName(s: string) {
    s != [] && forall i :: 0 <= i < |s| ==> NameChar(s[i])
  }

  /**
   Labels of types that are not expanded: no slash, not the opening of a struct description, and that of a
   mapping description only in the label of an array of mappings, which has the arrow in it.
   */
  predicate CleanLabel(s: string) {
    '/' !in s && !("struct{" <= s) && ("mapping(" <= s ==> '=' in s)
  }

  /** Mapping keys are never expanded, and no arrow is in their labels. */
  predicate CleanKey(s: Shape) {
    s.Leaf? && '=' !in s.name
  }

  predicate Clean(s: Shape)
    decreases s
  {
    match s
    case Unknown(_) => false
    case MapOf(k, v) => CleanKey(k) && Clean(k) && Clean(v)
    case ListOf(b) => Clean(b)
    case StructOf(fs) => forall i :: 0 <= i < |fs| ==> CleanName(fs[i].name) && Clean(fs[i].shape)
    case Leaf(name, _) => CleanLabel(name)
  }

  function Size(s: Shape): nat
    decreases s, 0
  {
    match s
    case Unknown(_) => 1
    case MapOf(k, v) => 1 + Size(k) + Size(v)
    case ListOf(b) => 1 + Size(b)
    case StructOf(fs) => 1 + SizeAll(fs)
    case Leaf(_, _) => 1
  }

  function SizeAll(fs: seq<Field>): nat
    decreases fs, 1
  {
    if fs == [] then 0 else 1 + Size(fs[0].shape) + SizeAll(fs[1..])
  }

  /** A shape without its outer array brackets, and how many there are. */
  function Core(s: Shape): (c: Shape)
    ensures !c.ListOf? && Size(c) <= Size(s) && (Clean(s) ==> Clean(c))
  {
    if s.ListOf? then Core(s.base) else s
  }

  function Depth(s: Shape): nat {
    if s.ListOf? then 1 + Depth(s.base) else 0
  }

  function Brackets(n: nat): string {
    if n == 0 then [] else Brackets(n - 1) + "[]"
  }

  lemma {:induction false} TextOfCore(s: Shape)
    ensures Text(s) == Text(Core(s)) + Brackets(Depth(s))
  {
    if s.ListOf? {
      TextOfCore(s.base);
    }
  }

  lemma {:induction false} SameCore(s: Shape, t: Shape)
    requires Core(s) == Core(t) && Depth(s) == Depth(t)
    ensures s == t
  {
    if s.ListOf? {
      SameCore(s.base, t.base);
    }
  }

  lemma {:induction false} BracketsFront(n: nat)
    requires n > 0
    ensures Brackets(n) == "[]" + Brackets(n - 1)
  {
    if n > 1 {
      BracketsFront(n - 1);
    }
  }

  /** A type's description is over: neither brackets nor digits follow. */
  predicate TypeEnds(r: string) {
    NumberEnds(r) && (r == [] || r[0] != '[')
  }

  lemma {:induction false} BracketsPrefix(m: nat, n: nat, r: string, r': string)
    requires Brackets(m) + r == Brackets(n) + r' && TypeEnds(r) && TypeEnds(r')
    ensures m == n && r == r'
  {
    BracketsHead(m, r);
    BracketsHead(n, r');
    if m > 0 && n > 0 {
      BracketsFront(m);
      BracketsFront(n);
      assert (Brackets(m) + r)[2..] == Brackets(m - 1) + r;
      assert (Brackets(n) + r')[2..] == Brackets(n - 1) + r';
      BracketsPrefix(m - 1, n - 1, r, r');
    }
  }

  lemma BracketsHead(n: nat, r: string)
    ensures n > 0 ==> Brackets(n) + r != [] && (Brackets(n) + r)[0] == '['
    ensures n == 0 ==> Brackets(n) + r == r
  {
    if n > 0 {
      BracketsFront(n);
    }
  }

  /** Clean descriptions form a code: no description continues another one. */
  lemma {:induction false} TextCode(s: Shape, t: Shape, r: string, r': string)
    requires Clean(s) && Clean(t) && TypeEnds(r) && TypeEnds(r') && Text(s) + r == Text(t) + r'
    ensures s == t && r == r'
    decreases Size(s), 1
  {
    hide Text, Clean, Size;
    TextOfCore(s);
    TextOfCore(t);
    var b, b' := Brackets(Depth(s)) + r, Brackets(Depth(t)) + r';
    assert Text(s) + r == Text(Core(s)) + b && Text(t) + r' == Text(Core(t)) + b';
    BracketsStart(Depth(s), r);
    BracketsStart(Depth(t), r');
    CoreCode(Core(s), Core(t), b, b');
    BracketsPrefix(Depth(s), Depth(t), r, r');
    SameCore(s, t);
  }

  lemma BracketsStart(n: nat, r: string)
    requires NumberEnds(r)
    ensures NumberEnds(Brackets(n) + r)
  {
    if n > 0 {
      BracketsFront(n);
    }
  }

  lemma {:induction false} CoreCode(s: Shape, t: Shape, r: string, r': string)
    requires Clean(s) && Clean(t) && !s.ListOf? && !t.ListOf?
    requires NumberEnds(r) && NumberEnds(r') && Text(s) + r == Text(t) + r'
    ensures s == t && r == r'
    decreases Size(s), 0
  {
    hide Dec, FieldsText, CleanLabel;
    Opening(s, r);
    Opening(t, r');
    if s.MapOf? && t.Leaf? {
      NotMapping(s.key, s.value, t.name, t.bytes, r, r');
    } else if s.Leaf? && t.MapOf? {
      NotMapping(t.key, t.value, s.name, s.bytes, r', r);
    }
    match s
    case MapOf(k, v) => MapCode(k, v, t.key, t.value, r, r');
    case StructOf(fs) =>
      Strip("struct{", FieldsText(fs) + "}" + r, FieldsText(t.fields) + "}" + r') by {
        assert Text(s) + r == "struct{" + (FieldsText(fs) + "}" + r);
        assert Text(t) + r' == "struct{" + (FieldsText(t.fields) + "}" + r');
      }
      FieldsCode(fs, t.fields, r, r');
    case Leaf(name, bytes) =>
      assert CleanLabel(name) && CleanLabel(t.name);
      assert Text(s) + r == name + ['/'] + (Dec(bytes) + r) && Text(t) + r' == t.name + ['/'] + (Dec(t.bytes) + r');
      NoSlash(name);
      NoSlash(t.name);
      UntilChar(name, t.name, '/', Dec(bytes) + r, Dec(t.bytes) + r');
      DecPrefix(bytes, t.bytes, r, r');
  }

  /** Up to its first slash a mapping's description has no arrow, an array of mappings' label has one. */
  lemma NotMapping(k: Shape, v: Shape, name: string, bytes: nat, r: string, r': string)
    requires Clean(MapOf(k, v)) && CleanLabel(name)
    ensures Text(MapOf(k, v)) + r != Text(Leaf(name, bytes)) + r'
  {
    hide Dec;
    MapText(k, v, r);
    var head, rest := "mapping(" + k.name, Dec(k.bytes) + (" => " + (Text(v) + (")" + r)));
    assert Text(MapOf(k, v)) + r == head + ['/'] + rest;
    assert Text(Leaf(name, bytes)) + r' == name + ['/'] + (Dec(bytes) + r');
    assert '/' !in "mapping(" && '=' !in "mapping(";
    assert "mapping(" <= head;
    if Text(MapOf(k, v)) + r == Text(Leaf(name, bytes)) + r' {
      UntilChar(head, name, '/', rest, Dec(bytes) + r');
    }
  }

  lemma NoSlash(s: string)
    requires CleanLabel(s)
    ensures '/' !in s
  {
  }

  lemma Strip(p: string, a: string, b: string)
    requires p + a == p + b
    ensures a == b
  {
    assert (p + a)[|p|..] == a && (p + b)[|p|..] == b;
  }

  /** How a clean description starts. */
  lemma Opening(s: Shape, r: string)
    requires Clean(s) && !s.ListOf?
    ensures s.MapOf? ==> "mapping(" <= Text(s) + r
    ensures "struct{" <= Text(s) + r <==> s.StructOf?
  {
    hide Dec, FieldsText;
    var x := Text(s) + r;
    match s
    case MapOf(k, v) => assert x[0] == 'm';
    case StructOf(fs) => assert x[0] == 's';
    case Leaf(name, bytes) =>
      assert x == name + ['/'] + (Dec(bytes) + r);
      NotOpened(name, "struct{", x);
  }

  lemma NotOpened(name: string, p: string, x: string)
    requires name + ['/'] <= x && '/' !in p && !(p <= name)
    ensures !(p <= x)
  {
    if |p| <= |name| {
      var i :| 0 <= i < |p| && p[i] != name[i];
      assert x[i] == name[i];
    } else {
      assert x[|name|] == '/';
      assert p[|name|] in p;
    }
  }

  lemma {:induction false} MapCode(k: Shape, v: Shape, k': Shape, v': Shape, r: string, r': string)
    requires Clean(k) && Clean(v) && Clean(k') && Clean(v')
    requires Text(MapOf(k, v)) + r == Text(MapOf(k', v')) + r'
    ensures k == k' && v == v' && r == r'
    decreases Size(k) + Size(v), 2
  {
    hide Clean;
    var a, a' := Text(v) + (")" + r), Text(v') + (")" + r');
    Strip("mapping(", Text(k) + (" => " + a), Text(k') + (" => " + a')) by {
      MapText(k, v, r);
      MapText(k', v', r');
    }
    TextCode(k, k', " => " + a, " => " + a');
    Strip(" => ", a, a');
    TextCode(v, v', ")" + r, ")" + r');
    Strip(")", r, r');
  }

  lemma MapText(k: Shape, v: Shape, r: string)
    ensures Text(MapOf(k, v)) + r == "mapping(" + (Text(k) + (" => " + (Text(v) + (")" + r))))
  {
    var a, b := Text(k), Text(v);
    assert Text(MapOf(k, v)) == "mapping(" + a + " => " + b + ")";
  }

  /** What follows a field: the rest of the struct's description and `r`. */
  function FieldsTail(fs: seq<Field>, r: string): string {
    if |fs| <= 1 then "}" + r else "," + (FieldsText(fs[1..]) + "}" + r)
  }

  lemma FieldsSplit(fs: seq<Field>, r: string)
    requires fs != []
    ensures var f := fs[0];
            FieldsText(fs) + "}" + r
            == f.name + ['@'] + (Dec(f.slot) + ("+" + (Dec(f.offset) + (":" + (Text(f.shape) + FieldsTail(fs, r))))))
  {
    hide Dec, Text, FieldsTail, FieldText, FieldsText;
    var f := fs[0];
    FieldSplit(f.name, Dec(f.slot), Dec(f.offset), Text(f.shape), FieldsTail(fs, r));
    FieldsAre(fs, r);
    FieldIs(f);
  }

  lemma FieldIs(f: Field)
    ensures FieldText(f) == f.name + "@" + Dec(f.slot) + "+" + Dec(f.offset) + ":" + Text(f.shape)
  {
  }

  lemma FieldsAre(fs: seq<Field>, r: string)
    requires fs != []
    ensures FieldsText(fs) + "}" + r == FieldText(fs[0]) + FieldsTail(fs, r)
  {
    hide FieldText;
    if |fs| > 1 {
      Regroup(FieldText(fs[0]), ",", FieldsText(fs[1..]), "}" + r);
      Associate(FieldText(fs[0]) + "," + FieldsText(fs[1..]), "}", r);
      Associate(FieldsText(fs[1..]), "}", r);
    } else {
      Associate(FieldText(fs[0]), "}", r);
    }
  }

  lemma Associate(a: string, b: string, c: string)
    ensures a + b + c == a + (b + c)
  {
  }

  lemma FieldSplit(a: string, b: string, c: string, d: string, x: string)
    ensures a + "@" + b + "+" + c + ":" + d + x == a + ['@'] + (b + ("+" + (c + (":" + (d + x)))))
  {
    var y := ":" + (d + x);
    Regroup(c, ":", d, x);
    Regroup(b, "+", c, y);
    Regroup(a, "@", b, "+" + (c + y));
    assert a + "@" + b + "+" + c + ":" + d + x == a + "@" + b + "+" + (c + ":" + d + x);
    assert a + "@" + b + "+" + (c + y) == a + "@" + b + ("+" + (c + y));
  }

  lemma Regroup(a: string, m: string, b: string, x: string)
    ensures a + m + b + x == a + (m + (b + x))
  {
  }

  lemma {:induction false} FieldsCode(fs: seq<Field>, gs: seq<Field>, r: string, r': string)
    requires Clean(StructOf(fs)) && Clean(StructOf(gs)) && FieldsText(fs) + "}" + r == FieldsText(gs) + "}" + r'
    ensures fs == gs && r == r'
    decreases SizeAll(fs), 3
  {
    hide Dec, Text, FieldsText;
    if fs == [] || gs == [] {
      NoFields(fs, gs, r, r');
    } else {
      var f, g, x, x' := fs[0], gs[0], FieldsTail(fs, r), FieldsTail(gs, r');
      FieldsSplit(fs, r);
      FieldsSplit(gs, r');
      NoAt(f.name);
      NoAt(g.name);
      var o, o' := Dec(f.offset) + (":" + (Text(f.shape) + x)), Dec(g.offset) + (":" + (Text(g.shape) + x'));
      UntilChar(f.name, g.name, '@', Dec(f.slot) + ("+" + o), Dec(g.slot) + ("+" + o'));
      DecPrefix(f.slot, g.slot, "+" + o, "+" + o');
      Strip("+", o, o');
      DecPrefix(f.offset, g.offset, ":" + (Text(f.shape) + x), ":" + (Text(g.shape) + x'));
      Strip(":", Text(f.shape) + x, Text(g.shape) + x');
      TextCode(f.shape, g.shape, x, x');
      if |fs| > 1 {
        assert x[0] == ',';
        assert |gs| > 1;
        Strip(",", FieldsText(fs[1..]) + "}" + r, FieldsText(gs[1..]) + "}" + r');
        FieldsCode(fs[1..], gs[1..], r, r');
        assert fs == [f] + fs[1..] && gs == [g] + gs[1..];
      } else {
        assert x[0] == '}';
        assert |gs| == 1;
        Strip("}", r, r');
        assert fs == [f] && gs == [g];
      }
    }
  }

  lemma NoAt(s: string)
    requires CleanName(s)
    ensures '@' !in s && s[0] != '}'
  {
  }

  lemma NoFields(fs: seq<Field>, gs: seq<Field>, r: string, r': string)
    requires Clean(StructOf(fs)) && Clean(StructOf(gs)) && (fs == [] || gs == [])
    requires FieldsText(fs) + "}" + r == FieldsText(gs) + "}" + r'
    ensures fs == [] && gs == [] && r == r'
  {
    hide Dec, Text, FieldsText, Clean;
    FieldsHead(fs, r);
    FieldsHead(gs, r');
    if fs == [] && gs == [] {
      Strip("}", r, r');
    }
  }

  lemma FieldsHead(fs: seq<Field>, r: string)
    requires Clean(StructOf(fs))
    ensures fs == [] ==> FieldsText(fs) + "}" + r == "}" + r
    ensures (FieldsText(fs) + "}" + r)[0] == '}' <==> fs == []
  {
    hide Dec, Text;
    if fs != [] {
      FieldsSplit(fs, r);
      NoAt(fs[0].name);
      assert (FieldsText(fs) + "}" + r)[0] == fs[0].name[0];
    }
  }

  /** Descriptions of clean types are equal only when the shapes are. */
  lemma TextInjective(s: Shape, t: Shape)
    requires Clean(s) && Clean(t) && Text(s) == Text(t)
    ensures s == t
  {
    assert Text(s) + [] == Text(t) + [];
    TextCode(s, t, [], []);
  }
}
