/**
 What a stored type really is, elements of fixed-size arrays included, and exactly when an answer without
 errors keeps that. A description does not expand a fixed-size array: it shows a label and a size. A label
 tells everything about the elements but what a program may define anew under the same name: the members
 of a struct, and the size of a value type of its own.
 */
module FullLayout {
  import opened Layout
  import opened CompiledLayout

  datatype Full =
    | Absent(id: string)
    | Table(key: Full, value: Full)
    | List(base: Full)
    | Record(places: seq<Place>)
    | Array(name: string, bytes: nat, base: Full)
    | Value(name: string, bytes: nat)

  datatype Place = Place(name: string, slot: nat, offset: nat, full: Full)

  function FullOf(l: Layout, id: string, ghost rank: map<string, nat>): Full
    requires Acyclic(l, rank)
    decreases Rank(l, rank, id), 0
  {
    if id !in l.types then Absent(id)
    else
      match l.types[id]
      case Mapping(_, _, k, v) => Table(FullOf(l, k, rank), FullOf(l, v, rank))
      case DynamicArray(_, _, b) => List(FullOf(l, b, rank))
      case Struct(_, _, ms) => Record(PlacesOf(l, ms, rank, id))
      case FixedArray(name, bytes, b) => Array(name, bytes, FullOf(l, b, rank))
      case Plain(name, bytes) => Value(name, bytes)
  }

  function PlacesOf(l: Layout, ms: seq<Var>, ghost rank: map<string, nat>, ghost id: string): (ps: seq<Place>)
    requires Acyclic(l, rank) && id in l.types && forall i :: 0 <= i < |ms| ==> Below(l, rank, ms[i].typeId, id)
    ensures |ps| == |ms|
    decreases Rank(l, rank, id) - 1, |ms| + 1
  {
    if ms == [] then []
    else
      assert Below(l, rank, ms[0].typeId, id);
      [Place(ms[0].name, ms[0].slot, ms[0].offset, FullOf(l, ms[0].typeId, rank))] + PlacesOf(l, ms[1..], rank, id)
  }

  // ------------------------------------------------------------------ what a label leaves open

  /** Elements of another size would give an array of the same label and size. */
  ghost predicate Slack(name: string, bytes: nat, base: TypeInfo) {
    exists n, size :: 1 <= size <= 32 && size != base.bytes && ArrayEntry(name, bytes, n, base.name, size)
  }

  /**
   The label, and with `pinned` the size, leave open what the type is: a struct is in it, or a value type
   of the program's own whose size nothing shows.
   */
  ghost predicate Loose(l: Layout, id: string, rank: map<string, nat>, elementary: Sizes, pinned: bool)
    requires Acyclic(l, rank)
    decreases Rank(l, rank, id)
  {
    id in l.types &&
    match l.types[id]
    case Mapping(_, _, k, v) => Loose(l, k, rank, elementary, false) || Loose(l, v, rank, elementary, false)
    case DynamicArray(_, _, b) => Loose(l, b, rank, elementary, false)
    case Struct(_, _, _) => true
    case FixedArray(name, bytes, b) =>
      if pinned && b in l.types && l.types[b].Plain?
      then l.types[b].name !in elementary && Slack(name, bytes, l.types[b])
      else Loose(l, b, rank, elementary, pinned)
    case Plain(name, _) => !pinned && name !in elementary
  }

  /** Expanding the type as its description does ends at a fixed-size array that is left open. */
  ghost predicate Blind(l: Layout, id: string, rank: map<string, nat>, elementary: Sizes)
    requires Acyclic(l, rank)
    decreases Rank(l, rank, id)
  {
    id in l.types && RefsBelow(l, rank, l.types[id], id) &&
    match l.types[id]
    case Mapping(_, _, k, v) => Blind(l, k, rank, elementary) || Blind(l, v, rank, elementary)
    case DynamicArray(_, _, b) => Blind(l, b, rank, elementary)
    case Struct(_, _, ms) => exists i :: 0 <= i < |ms| && Blind(l, ms[i].typeId, rank, elementary)
    case FixedArray(_, _, _) => Loose(l, id, rank, elementary, true)
    case Plain(_, _) => false
  }

  // ------------------------------------------------------------------ reading labels

  /** The label tells the kind of type. */
  lemma KindByName(l: Layout, id: string, rank: map<string, nat>, elementary: Sizes)
    requires WellFormed(l, rank, elementary) && id in l.types
    ensures var t := l.types[id];
            && (t.DynamicArray? || t.FixedArray? <==> EndsInBracket(t.name))
            && (t.DynamicArray? <==> EndsInBracket(t.name) && |t.name| >= 2 && t.name[|t.name| - 2] == '[')
            && (!EndsInBracket(t.name) ==>
                  (t.Mapping? <==> "mapping(" <= t.name) && (t.Struct? <==> "struct " <= t.name))
  {
    hide Extent, ArrayBytes, Dec, WellFormed;
    Parts(l, id, rank, elementary);
    match l.types[id]
    case Mapping(name, _, k, v) => assert name[|name| - 1] == ')' && name[0] == 'm';
    case DynamicArray(name, _, b) =>
    case FixedArray(name, bytes, b) =>
      var n :| ArrayEntry(name, bytes, n, l.types[b].name, l.types[b].bytes);
      DecDigits(n);
      var d := Dec(n);
      assert name[|name| - 2] == d[|d| - 1];
    case Struct(name, _, _) => assert name[0] == 's';
    case Plain(_, _) =>
  }

  lemma ArrayNameInjective(a: string, m: nat, b: string, n: nat)
    requires ArrayName(a, m) == ArrayName(b, n)
    ensures a == b && m == n
  {
    hide Dec;
    DecDigits(m);
    DecDigits(n);
    var x := ArrayName(a, m);
    assert x[|a|] == '[' && x[|b|] == '[';
    assert forall i :: |a| < i < |x| - 1 ==> x[i] == Dec(m)[i - |a| - 1];
    assert forall i :: |b| < i < |x| - 1 ==> x[i] == Dec(n)[i - |b| - 1];
    assert |a| == |b|;
    assert a == x[..|a|] == b;
    assert Dec(m) == x[|a| + 1..|x| - 1] == Dec(n);
    DecInjective(m, n);
  }

  lemma MapNameInjective(k: string, v: string, k': string, v': string)
    requires MapName(k, v) == MapName(k', v') && '=' !in k && '=' !in k'
    ensures k == k' && v == v'
  {
    var r, r' := "> " + v + ")", "> " + v' + ")";
    Strip("mapping(", (k + " ") + ['='] + r, (k' + " ") + ['='] + r') by {
      assert MapName(k, v) == "mapping(" + ((k + " ") + ['='] + r);
      assert MapName(k', v') == "mapping(" + ((k' + " ") + ['='] + r');
    }
    UntilChar(k + " ", k' + " ", '=', r, r');
    assert k == (k + " ")[..|k|] && k' == (k' + " ")[..|k'|];
    assert v == r[2..|r| - 1] && v' == r'[2..|r'| - 1];
  }

  lemma ListNameInjective(a: string, b: string)
    requires a + "[]" == b + "[]"
    ensures a == b
  {
    assert a == (a + "[]")[..|a|] && b == (b + "[]")[..|b|];
  }

  lemma WordBytes(n: nat, size: nat)
    requires size > 0 && size % 32 == 0
    ensures ArrayBytes(n, size) == n * size
  {
    if size == 32 {
      assert 32 / size == 1;
    }
  }

  lemma SameWords(n: nat, s: nat, s': nat)
    requires n > 0 && s > 0 && s' > 0 && s % 32 == 0 && s' % 32 == 0 && ArrayBytes(n, s) == ArrayBytes(n, s')
    ensures s == s'
  {
    hide ArrayBytes;
    WordBytes(n, s);
    WordBytes(n, s');
    Grows(n, s, s');
    Grows(n, s', s);
  }

  lemma {:induction false} Grows(n: nat, s: nat, s': nat)
    requires n > 0
    ensures s < s' ==> n * s < n * s'
  {
    if n > 1 {
      Grows(n - 1, s, s');
      assert n * s == (n - 1) * s + s && n * s' == (n - 1) * s' + s';
    }
  }

  // ------------------------------------------------------------------ equal labels, equal types

  /** What a label that leaves nothing open says. */
  lemma {:induction false} LabelTells(l: Layout, id: string, rank: map<string, nat>,
                                      l': Layout, id': string, rank': map<string, nat>, elementary: Sizes, pinned: bool)
    requires WellFormed(l, rank, elementary) && WellFormed(l', rank', elementary) && id in l.types && id' in l'.types
    requires l.types[id].name == l'.types[id'].name && (pinned ==> l.types[id].bytes == l'.types[id'].bytes)
    requires !Loose(l, id, rank, elementary, pinned)
    ensures FullOf(l, id, rank) == FullOf(l', id', rank') && l.types[id].bytes == l'.types[id'].bytes
    decreases Rank(l, rank, id)
  {
    hide WellFormed, Extent, MapName, PlacesOf, PlainName, StructName, ArrayBytes;
    KindByName(l, id, rank, elementary);
    KindByName(l', id', rank', elementary);
    Parts(l, id, rank, elementary);
    Parts(l', id', rank', elementary);
    match l.types[id]
    case Mapping(_, _, k, v) =>
      var k', v' := l'.types[id'].key, l'.types[id'].value;
      MapNameInjective(l.types[k].name, l.types[v].name, l'.types[k'].name, l'.types[v'].name);
      LabelTells(l, k, rank, l', k', rank', elementary, false);
      LabelTells(l, v, rank, l', v', rank', elementary, false);
    case DynamicArray(_, _, b) =>
      ListNameInjective(l.types[b].name, l'.types[l'.types[id'].base].name);
      LabelTells(l, b, rank, l', l'.types[id'].base, rank', elementary, false);
    case FixedArray(_, _, b) => ElementTells(l, id, rank, l', id', rank', elementary, pinned);
    case Struct(_, _, _) =>
    case Plain(_, _) =>
  }

  lemma {:induction false} ElementTells(l: Layout, id: string, rank: map<string, nat>,
                                        l': Layout, id': string, rank': map<string, nat>, elementary: Sizes,
                                          pinned: bool)
    requires WellFormed(l, rank, elementary) && WellFormed(l', rank', elementary) && id in l.types && id' in l'.types
    requires l.types[id].name == l'.types[id'].name && (pinned ==> l.types[id].bytes == l'.types[id'].bytes)
    requires !Loose(l, id, rank, elementary, pinned) && l.types[id].FixedArray? && l'.types[id'].FixedArray?
    ensures FullOf(l, id, rank) == FullOf(l', id', rank') && l.types[id].bytes == l'.types[id'].bytes
    decreases Rank(l, rank, id), 0
  {
    hide WellFormed, PlacesOf, ArrayBytes, ArrayName;
    Parts(l, id, rank, elementary);
    Parts(l', id', rank', elementary);
    var FixedArray(name, bytes, b) := l.types[id];
    var FixedArray(_, bytes', b') := l'.types[id'];
    var t, t' := l.types[b], l'.types[b'];
    var n :| ArrayEntry(name, bytes, n, t.name, t.bytes);
    var n' :| ArrayEntry(name, bytes', n', t'.name, t'.bytes);
    ArrayNameInjective(t.name, n, t'.name, n');
    KindByName(l, b, rank, elementary);
    KindByName(l', b', rank', elementary);
    LabelGood(l, b, rank, elementary);
    LabelGood(l', b', rank', elementary);
    if pinned && t.Plain? {
      Parts(l, b, rank, elementary);
      Parts(l', b', rank', elementary);
    } else {
      if pinned {
        SameWords(n, t.bytes, t'.bytes);
      }
      LabelTells(l, b, rank, l', b', rank', elementary, pinned);
    }
  }

  /** What a description that nowhere ends blindly says. */
  lemma {:induction false} ShapeTells(l: Layout, id: string, rank: map<string, nat>,
                                      l': Layout, id': string, rank': map<string, nat>, elementary: Sizes)
    requires WellFormed(l, rank, elementary) && WellFormed(l', rank', elementary) && id in l.types && id' in l'.types
    requires ShapeOf(l, id, rank) == ShapeOf(l', id', rank') && !Blind(l, id, rank, elementary)
    ensures FullOf(l, id, rank) == FullOf(l', id', rank')
    decreases Rank(l, rank, id), 0
  {
    hide WellFormed, PlacesOf, FieldsOf, Extent, Loose;
    Parts(l, id, rank, elementary);
    Parts(l', id', rank', elementary);
    match l.types[id]
    case Mapping(_, _, k, v) =>
      ShapeTells(l, k, rank, l', l'.types[id'].key, rank', elementary);
      ShapeTells(l, v, rank, l', l'.types[id'].value, rank', elementary);
    case DynamicArray(_, _, b) => ShapeTells(l, b, rank, l', l'.types[id'].base, rank', elementary);
    case Struct(_, _, ms) => FieldsTell(l, ms, id, rank, l', l'.types[id'].members, id', rank', elementary);
    case FixedArray(name, bytes, _) =>
      KindByName(l, id, rank, elementary);
      KindByName(l', id', rank', elementary);
      LabelTells(l, id, rank, l', id', rank', elementary, true);
    case Plain(_, _) =>
      KindByName(l, id, rank, elementary);
      KindByName(l', id', rank', elementary);
  }

  lemma {:induction false} FieldsTell(l: Layout, ms: seq<Var>, id: string, rank: map<string, nat>,
                                      l': Layout, ms': seq<Var>, id': string, rank': map<string, nat>,
                                        elementary: Sizes)
    requires WellFormed(l, rank, elementary) && WellFormed(l', rank', elementary) && id in l.types && id' in l'.types
    requires forall i :: 0 <= i < |ms| ==> Below(l, rank, ms[i].typeId, id) && ms[i].typeId in l.types
    requires forall i :: 0 <= i < |ms'| ==> Below(l', rank', ms'[i].typeId, id') && ms'[i].typeId in l'.types
    requires FieldsOf(l, ms, rank, id) == FieldsOf(l', ms', rank', id')
    requires forall i :: 0 <= i < |ms| ==> !Blind(l, ms[i].typeId, rank, elementary)
    ensures PlacesOf(l, ms, rank, id) == PlacesOf(l', ms', rank', id')
    decreases Rank(l, rank, id) - 1, |ms| + 1
  {
    hide WellFormed, ShapeOf, FullOf, Blind;
    Parts(l, id, rank, elementary);
    Parts(l', id', rank', elementary);
    if ms != [] {
      var fs, fs' := FieldsOf(l, ms, rank, id), FieldsOf(l', ms', rank', id');
      assert fs[0] == fs'[0] && fs[1..] == fs'[1..];
      assert fs[1..] == FieldsOf(l, ms[1..], rank, id) && fs'[1..] == FieldsOf(l', ms'[1..], rank', id');
      ShapeTells(l, ms[0].typeId, rank, l', ms'[0].typeId, rank', elementary);
      FieldsTell(l, ms[1..], id, rank, l', ms'[1..], id', rank', elementary);
    }
  }
}
