/**
 What the compiler promises about a layout: every type entry is resolved and its label and size follow from
 what it is made of. `elementary` gives the sizes of the language's own value types; only a value type that
 a program defines may have a name that fixes no size.
 */
module CompiledLayout {
  import opened Layout

  type Sizes = map<string, nat>

  // ------------------------------------------------------------------ labels and sizes

  function ArrayName(base: string, n: nat): string {
    base + "[" + Dec(n) + "]"
  }

  function MapName(key: string, value: string): string {
    "mapping(" + key + " => " + value + ")"
  }

  predicate EndsInBracket(name: string) {
    name != [] && name[|name| - 1] == ']'
  }

  predicate StructName(name: string) {
    "struct " <= name && '/' !in name && !EndsInBracket(name)
  }

  predicate PlainName(name: string) {
    && name != [] && '/' !in name && !EndsInBracket(name)
    && !("mapping(" <= name) && !("struct " <= name) && !("struct{" <= name)
  }

  /** Bytes of n elements: small ones share a word, others start a new one. */
  function ArrayBytes(n: nat, size: nat): nat
    requires size > 0
  {
    if size <= 32 then (n + 32 / size - 1) / (32 / size) * 32 else n * size
  }

  function BytesOf(l: Layout, id: string): nat {
    if id in l.types then l.types[id].bytes else 0
  }

  /** Words up to the end of the last member. */
  function Extent(l: Layout, ms: seq<Var>): nat {
    if ms == [] then 0
    else
      var end, rest := ms[0].slot + (BytesOf(l, ms[0].typeId) + 31) / 32, Extent(l, ms[1..]);
      if rest < end then end else rest
  }

  /** An array of n elements of this name and size has this label and size. */
  ghost predicate ArrayEntry(name: string, bytes: nat, n: nat, base: string, size: nat) {
    n > 0 && size > 0 && name == ArrayName(base, n) && bytes == ArrayBytes(n, size)
  }

  ghost predicate Entry(l: Layout, elementary: Sizes, t: TypeInfo) {
    match t
    case Mapping(name, bytes, k, v) =>
      && k in l.types && v in l.types && l.types[k].Plain? && '=' !in l.types[k].name
      && name == MapName(l.types[k].name, l.types[v].name) && bytes == 32
    case DynamicArray(name, bytes, b) => b in l.types && name == l.types[b].name + "[]" && bytes == 32
    case FixedArray(name, bytes, b) =>
      b in l.types && exists n :: ArrayEntry(name, bytes, n, l.types[b].name, l.types[b].bytes)
    case Struct(name, bytes, ms) =>
      && StructName(name) && ms != [] && bytes == Extent(l, ms) * 32
      && forall i :: 0 <= i < |ms| ==> CleanName(ms[i].name) && ms[i].typeId in l.types
    case Plain(name, bytes) =>
      PlainName(name) && 1 <= bytes <= 32 && (name in elementary ==> bytes == elementary[name])
  }

  predicate DistinctPositions(vars: seq<Var>) {
    forall i, j :: 0 <= i < j < |vars| ==> (vars[i].slot, vars[i].offset) != (vars[j].slot, vars[j].offset)
  }

  /** A layout as the compiler writes it. */
  ghost predicate WellFormed(l: Layout, rank: map<string, nat>, elementary: Sizes) {
    && Acyclic(l, rank)
    && (forall id :: id in l.types ==> Entry(l, elementary, l.types[id]))
    && (forall v :: v in l.storage ==> v.typeId in l.types)
    && DistinctPositions(l.storage)
  }

  // ------------------------------------------------------------------ labels can be read back

  predicate GoodName(name: string) {
    name != [] && '/' !in name && !("struct{" <= name) && ("mapping(" <= name ==> '=' in name)
  }

  lemma StaysGood(name: string, tail: string)
    requires GoodName(name) && "[" <= tail && '/' !in tail
    ensures GoodName(name + tail)
  {
    if |name| < |"struct{"| {
      NotAcross(name, tail, "struct{");
    }
    if |name| < |"mapping("| {
      NotAcross(name, tail, "mapping(");
    }
  }

  lemma NotAcross(name: string, tail: string, p: string)
    requires "[" <= tail && '[' !in p && |name| < |p|
    ensures !(p <= name + tail)
  {
    assert (name + tail)[|name|] == '[';
    assert p[|name|] in p;
  }

  lemma ArrayNameGood(base: string, n: nat)
    requires GoodName(base)
    ensures GoodName(ArrayName(base, n)) && GoodName(base + "[]")
    ensures EndsInBracket(ArrayName(base, n)) && EndsInBracket(base + "[]")
  {
    hide Dec, GoodName;
    DecDigits(n);
    var tail := "[" + Dec(n) + "]";
    assert ArrayName(base, n) == base + tail;
    assert '/' !in tail;
    StaysGood(base, tail);
    StaysGood(base, "[]");
  }

  lemma Parts(l: Layout, id: string, rank: map<string, nat>, elementary: Sizes)
    requires WellFormed(l, rank, elementary) && id in l.types
    ensures Acyclic(l, rank) && Entry(l, elementary, l.types[id]) && RefsBelow(l, rank, l.types[id], id)
  {
  }

  /** No label has a slash; only mappings and arrays of mappings start like a mapping. */
  lemma {:induction false} LabelGood(l: Layout, id: string, rank: map<string, nat>, elementary: Sizes)
    requires WellFormed(l, rank, elementary) && id in l.types
    ensures GoodName(l.types[id].name) && l.types[id].bytes > 0
    ensures if l.types[id].Plain? then l.types[id].bytes <= 32 else l.types[id].bytes % 32 == 0
    decreases Rank(l, rank, id)
  {
    hide GoodName, ArrayBytes, Extent, WellFormed, MapName, ArrayEntry, StructName, PlainName;
    Parts(l, id, rank, elementary);
    match l.types[id]
    case Mapping(name, _, k, v) =>
      LabelGood(l, k, rank, elementary);
      LabelGood(l, v, rank, elementary);
      MapNameGood(l.types[k].name, l.types[v].name);
    case DynamicArray(name, _, b) =>
      LabelGood(l, b, rank, elementary);
      ArrayNameGood(l.types[b].name, 1);
    case FixedArray(name, bytes, b) =>
      LabelGood(l, b, rank, elementary);
      ArrayEntryGood(name, bytes, l.types[b]);
    case Struct(name, _, ms) =>
      StructNameGood(name);
      LabelGood(l, ms[0].typeId, rank, elementary);
      FirstReaches(l, ms);
    case Plain(name, _) => PlainNameGood(name);
  }

  lemma ArrayEntryGood(name: string, bytes: nat, base: TypeInfo)
    requires GoodName(base.name) && (!base.Plain? ==> base.bytes % 32 == 0) && (base.Plain? ==> base.bytes <= 32)
    requires exists n :: ArrayEntry(name, bytes, n, base.name, base.bytes)
    ensures GoodName(name) && bytes > 0 && bytes % 32 == 0
  {
    hide GoodName, ArrayBytes, ArrayName;
    var n :| ArrayEntry(name, bytes, n, base.name, base.bytes);
    ArrayNameGood(base.name, n);
    ArrayWords(n, base.bytes);
  }

  lemma MapNameGood(key: string, value: string)
    requires GoodName(key) && GoodName(value)
    ensures GoodName(MapName(key, value))
  {
    var x := MapName(key, value);
    assert x[0] == 'm' && x[|"mapping(" + key| + 1] == '=';
    assert '/' !in "mapping(" && '/' !in " => " && '/' !in ")";
  }

  lemma StructNameGood(name: string)
    requires StructName(name)
    ensures GoodName(name)
  {
    assert name[6] == ' ' && name[0] == 's';
  }

  lemma PlainNameGood(name: string)
    requires PlainName(name)
    ensures GoodName(name)
  {
  }

  lemma FirstReaches(l: Layout, ms: seq<Var>)
    requires ms != [] && BytesOf(l, ms[0].typeId) > 0
    ensures Extent(l, ms) > 0
  {
  }

  lemma ArrayWords(n: nat, size: nat)
    requires n > 0 && size > 0 && (size > 32 ==> size % 32 == 0)
    ensures ArrayBytes(n, size) > 0 && ArrayBytes(n, size) % 32 == 0
  {
    if size <= 32 {
      var k := 32 / size;
      assert k >= 1;
      assert (n + k - 1) / k >= 1;
    } else {
      assert size == 32 * (size / 32);
      assert n * size == 32 * (n * (size / 32));
    }
  }

  // ------------------------------------------------------------------ shapes

  /** Bytes a shape takes in storage, a struct as many whole slots as its members reach. */
  function SizeOf(s: Shape): nat
    decreases s, 0
  {
    match s
    case Leaf(_, bytes) => bytes
    case StructOf(fs) => Reach(fs) * 32
    case _ => 32
  }

  function Reach(fs: seq<Field>): nat
    decreases fs, 1
  {
    if fs == [] then 0
    else
      var end, rest := fs[0].slot + (SizeOf(fs[0].shape) + 31) / 32, Reach(fs[1..]);
      if rest < end then end else rest
  }

  /** A well-formed type's shape is clean and has its size. */
  lemma {:induction false} ShapeIsClean(l: Layout, id: string, rank: map<string, nat>, elementary: Sizes)
    requires WellFormed(l, rank, elementary) && id in l.types
    ensures Clean(ShapeOf(l, id, rank)) && SizeOf(ShapeOf(l, id, rank)) == l.types[id].bytes
    decreases Rank(l, rank, id), 0
  {
    hide WellFormed, Extent, FieldsOf, Reach;
    LabelGood(l, id, rank, elementary);
    Parts(l, id, rank, elementary);
    match l.types[id]
    case Mapping(_, _, k, v) =>
      ShapeIsClean(l, k, rank, elementary);
      ShapeIsClean(l, v, rank, elementary);
    case DynamicArray(_, _, b) => ShapeIsClean(l, b, rank, elementary);
    case FixedArray(_, _, _) =>
    case Struct(_, _, ms) => FieldsAreClean(l, ms, id, rank, elementary);
    case Plain(_, _) =>
  }

  lemma {:induction false} FieldsAreClean(l: Layout, ms: seq<Var>, id: string, rank: map<string, nat>,
                                          elementary: Sizes)
    requires WellFormed(l, rank, elementary) && id in l.types
    requires forall i :: 0 <= i < |ms| ==>
               Below(l, rank, ms[i].typeId, id) && CleanName(ms[i].name) && ms[i].typeId in l.types
    ensures Clean(StructOf(FieldsOf(l, ms, rank, id))) && Reach(FieldsOf(l, ms, rank, id)) == Extent(l, ms)
    decreases Rank(l, rank, id) - 1, |ms| + 1
  {
    hide WellFormed, ShapeOf, CleanName, SizeOf;
    Parts(l, id, rank, elementary);
    if ms != [] {
      ShapeIsClean(l, ms[0].typeId, rank, elementary);
      FieldsAreClean(l, ms[1..], id, rank, elementary);
      var fs := FieldsOf(l, ms, rank, id);
      assert fs[1..] == FieldsOf(l, ms[1..], rank, id);
    }
  }
}
