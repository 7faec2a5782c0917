/**
 The other half: from any layout with a blind type a second one that the comparison cannot tell from it and
 in which that type is another. A variant is made by adding types under ids the layout does not use.
 */
module LayoutVariants {
  import opened Types
  import opened Layout
  import opened CompiledLayout
  import opened FullLayout

  // ------------------------------------------------------------------ adding a type

  /** The second layout has the first one's types as they were. */
  ghost predicate Extends(l: Layout, rank: map<string, nat>, l': Layout, rank': map<string, nat>) {
    forall id :: id in l.types ==> id in l'.types && l'.types[id] == l.types[id]
                                   && id in rank && id in rank' && rank'[id] == rank[id]
  }

  ghost function Above(ids: set<string>): (n: nat)
    ensures forall id :: id in ids ==> |id| < n
  {
    if ids == {} then 0
    else
      var x :| x in ids;
      Max(|x| + 1, Above(ids - {x}))
  }

  ghost function Fresh(l: Layout): (id: string)
    ensures id !in l.types
  {
    seq(Above(l.types.Keys), _ => '_')
  }

  lemma {:induction false} ExtentKept(l: Layout, l': Layout, ms: seq<Var>)
    requires forall id :: id in l.types ==> id in l'.types && l'.types[id] == l.types[id]
    requires forall i :: 0 <= i < |ms| ==> ms[i].typeId in l.types
    ensures Extent(l', ms) == Extent(l, ms)
  {
    if ms != [] {
      ExtentKept(l, l', ms[1..]);
    }
  }

  lemma EntryKept(l: Layout, l': Layout, elementary: Sizes, t: TypeInfo)
    requires forall id :: id in l.types ==> id in l'.types && l'.types[id] == l.types[id]
    requires Entry(l, elementary, t)
    ensures Entry(l', elementary, t)
  {
    hide ArrayEntry, Extent, PlainName, StructName, MapName;
    if t.Struct? {
      ExtentKept(l, l', t.members);
    }
  }

  /** One more type, that refers to what type `id` may refer to. */
  lemma AddType(l: Layout, rank: map<string, nat>, elementary: Sizes, id: string, t: TypeInfo)
    returns (l': Layout, rank': map<string, nat>, id': string)
    requires WellFormed(l, rank, elementary) && id in l.types
    requires Entry(l, elementary, t) && RefsBelow(l, rank, t, id)
    ensures WellFormed(l', rank', elementary) && Extends(l, rank, l', rank')
    ensures id' in l'.types && l'.types[id'] == t && rank'[id'] == rank[id]
  {
    hide Entry, Above, RefsBelow;
    id' := Fresh(l);
    l' := l.(types := l.types[id' := t]);
    rank' := rank[id' := rank[id]];
    forall x | x in l'.types
      ensures x in rank' && RefsBelow(l', rank', l'.types[x], x) && Entry(l', elementary, l'.types[x])
    {
      if x == id' {
        EntryKept(l, l', elementary, t);
        RefsKept(l, rank, l', rank', t, id, x, elementary);
      } else {
        assert RefsBelow(l, rank, l.types[x], x) && Entry(l, elementary, l.types[x]);
        EntryKept(l, l', elementary, l.types[x]);
        RefsKept(l, rank, l', rank', l.types[x], x, x, elementary);
      }
    }
  }

  lemma RefsKept(l: Layout, rank: map<string, nat>, l': Layout, rank': map<string, nat>, t: TypeInfo, id: string,
                 id': string, elementary: Sizes)
    requires id in rank && id' in rank' && rank'[id'] == rank[id]
    requires forall x :: x in l.types ==> x in l'.types && x in rank && x in rank' && rank'[x] == rank[x]
    requires RefsBelow(l, rank, t, id) && Entry(l, elementary, t)
    ensures RefsBelow(l', rank', t, id')
  {
    hide ArrayEntry, Extent, PlainName, StructName, MapName;
  }

  // ------------------------------------------------------------------ what was there stays

  lemma {:induction false} TypeKept(l: Layout, rank: map<string, nat>, l': Layout, rank': map<string, nat>, id: string,
                                    elementary: Sizes)
    requires WellFormed(l, rank, elementary) && WellFormed(l', rank', elementary) && Extends(l, rank, l', rank')
    requires id in l.types
    ensures FullOf(l', id, rank') == FullOf(l, id, rank) && ShapeOf(l', id, rank') == ShapeOf(l, id, rank)
    decreases Rank(l, rank, id), 0
  {
    hide WellFormed, PlacesOf, FieldsOf, Extent, ArrayEntry;
    Parts(l, id, rank, elementary);
    Parts(l', id, rank', elementary);
    match l.types[id]
    case Mapping(_, _, k, v) =>
      TypeKept(l, rank, l', rank', k, elementary);
      TypeKept(l, rank, l', rank', v, elementary);
    case DynamicArray(_, _, b) => TypeKept(l, rank, l', rank', b, elementary);
    case Struct(_, _, ms) => MembersKept(l, rank, l', rank', ms, id, elementary);
    case FixedArray(_, _, b) => TypeKept(l, rank, l', rank', b, elementary);
    case Plain(_, _) =>
  }

  lemma {:induction false} MembersKept(l: Layout, rank: map<string, nat>, l': Layout, rank': map<string, nat>,
                                       ms: seq<Var>, id: string, elementary: Sizes)
    requires WellFormed(l, rank, elementary) && WellFormed(l', rank', elementary) && Extends(l, rank, l', rank')
    requires id in l.types && forall i :: 0 <= i < |ms| ==> Below(l, rank, ms[i].typeId, id) && ms[i].typeId in l.types
    ensures forall i :: 0 <= i < |ms| ==> Below(l', rank', ms[i].typeId, id)
    ensures PlacesOf(l', ms, rank', id) == PlacesOf(l, ms, rank, id)
    ensures FieldsOf(l', ms, rank', id) == FieldsOf(l, ms, rank, id)
    decreases Rank(l, rank, id) - 1, |ms| + 1
  {
    hide WellFormed, ShapeOf, FullOf;
    Parts(l, id, rank, elementary);
    Parts(l', id, rank', elementary);
    if ms != [] {
      TypeKept(l, rank, l', rank', ms[0].typeId, elementary);
      MembersKept(l, rank, l', rank', ms[1..], id, elementary);
    }
  }

  lemma ExtendsOn(l: Layout, rank: map<string, nat>, l1: Layout, rank1: map<string, nat>, l2: Layout,
                  rank2: map<string, nat>)
    requires Extends(l, rank, l1, rank1) && Extends(l1, rank1, l2, rank2)
    ensures Extends(l, rank, l2, rank2)
  {
  }

  // ------------------------------------------------------------------ another type under the same label

  /** The same label, and another type. */
  ghost predicate Variant(l: Layout, rank: map<string, nat>, id: string, l': Layout, rank': map<string, nat>,
                          id': string, elementary: Sizes)
    requires WellFormed(l, rank, elementary) && id in l.types
  {
    && WellFormed(l', rank', elementary) && Extends(l, rank, l', rank') && id' in l'.types && rank'[id'] == rank[id]
    && l'.types[id'].name == l.types[id].name && (l'.types[id'].Plain? <==> l.types[id].Plain?)
    && FullOf(l', id', rank') != FullOf(l, id, rank)
  }

  /** One more type over a variant. */
  lemma Over(l: Layout, rank: map<string, nat>, id: string, l1: Layout, rank1: map<string, nat>, t: TypeInfo,
             elementary: Sizes)
    returns (l': Layout, rank': map<string, nat>, id': string)
    requires WellFormed(l, rank, elementary) && WellFormed(l1, rank1, elementary) && Extends(l, rank, l1, rank1)
    requires id in l.types && Entry(l1, elementary, t) && RefsBelow(l1, rank1, t, id)
    ensures WellFormed(l', rank', elementary) && Extends(l, rank, l', rank') && Extends(l1, rank1, l', rank')
    ensures id' in l'.types && l'.types[id'] == t && rank'[id'] == rank[id]
  {
    hide WellFormed, Entry, RefsBelow;
    l', rank', id' := AddType(l1, rank1, elementary, id, t);
    ExtendsOn(l, rank, l1, rank1, l', rank');
  }

  lemma {:induction false} Vary(l: Layout, rank: map<string, nat>, id: string, elementary: Sizes, pinned: bool)
    returns (l': Layout, rank': map<string, nat>, id': string)
    requires WellFormed(l, rank, elementary) && id in l.types && Loose(l, id, rank, elementary, pinned)
    ensures Variant(l, rank, id, l', rank', id', elementary)
    ensures pinned ==> l'.types[id'].bytes == l.types[id].bytes
    decreases Rank(l, rank, id), 1
  {
    hide WellFormed, Variant, Extent, ArrayEntry, Slack;
    Parts(l, id, rank, elementary);
    match l.types[id]
    case Mapping(_, _, k, v) => l', rank', id' := VaryMapping(l, rank, id, elementary);
    case DynamicArray(_, _, b) =>
      var l1, rank1, b' := Vary(l, rank, b, elementary, false);
      l', rank', id' := VaryList(l, rank, id, elementary, l1, rank1, b');
    case Struct(_, _, _) => l', rank', id' := VaryStruct(l, rank, id, elementary);
    case FixedArray(_, _, b) =>
      if pinned && l.types[b].Plain? {
        l', rank', id' := VaryElement(l, rank, id, elementary);
      } else {
        var l1, rank1, b' := Vary(l, rank, b, elementary, pinned);
        l', rank', id' := VaryArray(l, rank, id, elementary, l1, rank1, b', pinned);
      }
    case Plain(_, bytes) => l', rank', id' := VaryValue(l, rank, id, elementary, if bytes == 1 then 2 else 1);
  }

  /** A value type of another size. */
  lemma VaryValue(l: Layout, rank: map<string, nat>, id: string, elementary: Sizes, size: nat)
    returns (l': Layout, rank': map<string, nat>, id': string)
    requires WellFormed(l, rank, elementary) && id in l.types && l.types[id].Plain?
    requires l.types[id].name !in elementary && 1 <= size <= 32 && size != l.types[id].bytes
    ensures Variant(l, rank, id, l', rank', id', elementary) && l'.types[id'] == Plain(l.types[id].name, size)
  {
    hide WellFormed, PlainName;
    Parts(l, id, rank, elementary);
    l', rank', id' := AddType(l, rank, elementary, id, Plain(l.types[id].name, size));
    Parts(l', id', rank', elementary);
  }

  /** A struct whose first member has another name. */
  lemma VaryStruct(l: Layout, rank: map<string, nat>, id: string, elementary: Sizes)
    returns (l': Layout, rank': map<string, nat>, id': string)
    requires WellFormed(l, rank, elementary) && id in l.types && l.types[id].Struct?
    ensures Variant(l, rank, id, l', rank', id', elementary) && l'.types[id'].bytes == l.types[id].bytes
  {
    hide WellFormed, StructName, Extent, ShapeOf;
    Parts(l, id, rank, elementary);
    var Struct(name, bytes, ms) := l.types[id];
    var ms' := ms[0 := ms[0].(name := ms[0].name + "_")];
    RenameExtent(l, ms, ms[0].name + "_");
    assert CleanName(ms[0].name);
    assert forall i :: 0 <= i < |ms'| ==> Below(l, rank, ms'[i].typeId, id) && ms'[i].typeId == ms[i].typeId;
    l', rank', id' := AddType(l, rank, elementary, id, Struct(name, bytes, ms'));
    Parts(l', id', rank', elementary);
    assert PlacesOf(l', ms', rank', id')[0].name != PlacesOf(l, ms, rank, id)[0].name;
  }

  lemma RenameExtent(l: Layout, ms: seq<Var>, name: string)
    requires ms != []
    ensures Extent(l, ms[0 := ms[0].(name := name)]) == Extent(l, ms)
  {
    var ms' := ms[0 := ms[0].(name := name)];
    assert ms'[1..] == ms[1..];
  }

  lemma VaryMapping(l: Layout, rank: map<string, nat>, id: string, elementary: Sizes)
    returns (l': Layout, rank': map<string, nat>, id': string)
    requires WellFormed(l, rank, elementary) && id in l.types && l.types[id].Mapping?
    requires Loose(l, id, rank, elementary, false)
    ensures Variant(l, rank, id, l', rank', id', elementary) && l'.types[id'].bytes == l.types[id].bytes
    decreases Rank(l, rank, id), 0
  {
    hide WellFormed, MapName;
    Parts(l, id, rank, elementary);
    var Mapping(name, bytes, k, v) := l.types[id];
    var l1, rank1: map<string, nat>, k', v' := l, rank, k, v;
    if Loose(l, k, rank, elementary, false) {
      l1, rank1, k' := Vary(l, rank, k, elementary, false);
      TypeKept(l, rank, l1, rank1, v, elementary);
    } else {
      l1, rank1, v' := Vary(l, rank, v, elementary, false);
      TypeKept(l, rank, l1, rank1, k, elementary);
    }
    Parts(l1, k', rank1, elementary);
    l', rank', id' := Over(l, rank, id, l1, rank1, Mapping(name, bytes, k', v'), elementary);
    TypeKept(l1, rank1, l', rank', k', elementary);
    TypeKept(l1, rank1, l', rank', v', elementary);
    Parts(l', id', rank', elementary);
  }

  lemma VaryList(l: Layout, rank: map<string, nat>, id: string, elementary: Sizes, l1: Layout, rank1: map<string, nat>,
                 b': string)
    returns (l': Layout, rank': map<string, nat>, id': string)
    requires WellFormed(l, rank, elementary) && id in l.types && l.types[id].DynamicArray?
             && l.types[id].base in l.types
    requires Variant(l, rank, l.types[id].base, l1, rank1, b', elementary)
    ensures Variant(l, rank, id, l', rank', id', elementary) && l'.types[id'].bytes == l.types[id].bytes
  {
    hide WellFormed;
    Parts(l, id, rank, elementary);
    Parts(l1, b', rank1, elementary);
    l', rank', id' := Over(l, rank, id, l1, rank1, l.types[id].(base := b'), elementary);
    TypeKept(l1, rank1, l', rank', b', elementary);
    Parts(l', id', rank', elementary);
  }

  lemma VaryArray(l: Layout, rank: map<string, nat>, id: string, elementary: Sizes, l1: Layout, rank1: map<string, nat>,
                  b': string, pinned: bool)
    returns (l': Layout, rank': map<string, nat>, id': string)
    requires WellFormed(l, rank, elementary) && id in l.types && l.types[id].FixedArray? && l.types[id].base in l.types
    requires Variant(l, rank, l.types[id].base, l1, rank1, b', elementary)
    requires pinned ==> l1.types[b'].bytes == l.types[l.types[id].base].bytes
    ensures Variant(l, rank, id, l', rank', id', elementary)
    ensures pinned ==> l'.types[id'].bytes == l.types[id].bytes
  {
    hide WellFormed, ArrayBytes, ArrayName;
    Parts(l, id, rank, elementary);
    var FixedArray(name, bytes, b) := l.types[id];
    var n :| ArrayEntry(name, bytes, n, l.types[b].name, l.types[b].bytes);
    LabelGood(l1, b', rank1, elementary);
    var size := l1.types[b'].bytes;
    assert ArrayEntry(name, ArrayBytes(n, size), n, l1.types[b'].name, size);
    Parts(l1, b', rank1, elementary);
    l', rank', id' := Over(l, rank, id, l1, rank1, FixedArray(name, ArrayBytes(n, size), b'), elementary);
    TypeKept(l1, rank1, l', rank', b', elementary);
    Parts(l', id', rank', elementary);
  }

  /** Elements of another size in an array of the same size. */
  lemma VaryElement(l: Layout, rank: map<string, nat>, id: string, elementary: Sizes)
    returns (l': Layout, rank': map<string, nat>, id': string)
    requires WellFormed(l, rank, elementary) && id in l.types && l.types[id].FixedArray? && l.types[id].base in l.types
    requires var b := l.types[l.types[id].base];
             b.Plain? && b.name !in elementary && Slack(l.types[id].name, l.types[id].bytes, b)
    ensures Variant(l, rank, id, l', rank', id', elementary) && l'.types[id'].bytes == l.types[id].bytes
  {
    hide WellFormed, ArrayEntry;
    Parts(l, id, rank, elementary);
    var FixedArray(name, bytes, b) := l.types[id];
    var n, size :| 1 <= size <= 32 && size != l.types[b].bytes && ArrayEntry(name, bytes, n, l.types[b].name, size);
    var l1, rank1, b' := VaryValue(l, rank, b, elementary, size);
    Parts(l1, b', rank1, elementary);
    l', rank', id' := Over(l, rank, id, l1, rank1, FixedArray(name, bytes, b'), elementary);
    TypeKept(l1, rank1, l', rank', b', elementary);
    Parts(l', id', rank', elementary);
  }

  // ------------------------------------------------------------------ another type under the same description

  /** The same label, size and description, and another type. */
  ghost predicate Lookalike(l: Layout, rank: map<string, nat>, id: string, l': Layout, rank': map<string, nat>,
                            id': string, elementary: Sizes)
    requires WellFormed(l, rank, elementary) && id in l.types
  {
    && Variant(l, rank, id, l', rank', id', elementary) && l'.types[id'].bytes == l.types[id].bytes
    && ShapeOf(l', id', rank') == ShapeOf(l, id, rank)
  }

  lemma {:induction false} Disguise(l: Layout, rank: map<string, nat>, id: string, elementary: Sizes)
    returns (l': Layout, rank': map<string, nat>, id': string)
    requires WellFormed(l, rank, elementary) && id in l.types && Blind(l, id, rank, elementary)
    ensures Lookalike(l, rank, id, l', rank', id', elementary)
    decreases Rank(l, rank, id)
  {
    hide WellFormed, Lookalike, Extent, ArrayEntry, Loose;
    Parts(l, id, rank, elementary);
    match l.types[id]
    case Mapping(_, _, k, v) =>
      assert !Blind(l, k, rank, elementary);
      var l1, rank1, v' := Disguise(l, rank, v, elementary);
      l', rank', id' := DisguiseMapping(l, rank, id, elementary, l1, rank1, v');
    case DynamicArray(_, _, b) =>
      var l1, rank1, b' := Disguise(l, rank, b, elementary);
      l', rank', id' := DisguiseList(l, rank, id, elementary, l1, rank1, b');
    case Struct(_, _, ms) =>
      var i :| 0 <= i < |ms| && Blind(l, ms[i].typeId, rank, elementary);
      var l1, rank1, m' := Disguise(l, rank, ms[i].typeId, elementary);
      l', rank', id' := DisguiseStruct(l, rank, id, elementary, i, l1, rank1, m');
    case FixedArray(_, _, _) =>
      l', rank', id' := Vary(l, rank, id, elementary, true);
      DisguisedArray(l, rank, id, l', rank', id', elementary);
  }

  /** A fixed-size array's description is its label and size. */
  lemma DisguisedArray(l: Layout, rank: map<string, nat>, id: string, l': Layout, rank': map<string, nat>, id': string,
                       elementary: Sizes)
    requires WellFormed(l, rank, elementary) && id in l.types && l.types[id].FixedArray?
    requires Variant(l, rank, id, l', rank', id', elementary) && l'.types[id'].bytes == l.types[id].bytes
    ensures Lookalike(l, rank, id, l', rank', id', elementary)
  {
    hide WellFormed, FullOf;
    KindByName(l, id, rank, elementary);
    KindByName(l', id', rank', elementary);
    Parts(l, id, rank, elementary);
    Parts(l', id', rank', elementary);
  }

  lemma DisguiseMapping(l: Layout, rank: map<string, nat>, id: string, elementary: Sizes, l1: Layout,
                        rank1: map<string, nat>, v': string)
    returns (l': Layout, rank': map<string, nat>, id': string)
    requires WellFormed(l, rank, elementary) && id in l.types && l.types[id].Mapping? && l.types[id].value in l.types
    requires Lookalike(l, rank, l.types[id].value, l1, rank1, v', elementary)
    ensures Lookalike(l, rank, id, l', rank', id', elementary)
  {
    hide WellFormed, MapName;
    Parts(l, id, rank, elementary);
    var k := l.types[id].key;
    TypeKept(l, rank, l1, rank1, k, elementary);
    Parts(l1, v', rank1, elementary);
    l', rank', id' := Over(l, rank, id, l1, rank1, l.types[id].(value := v'), elementary);
    TypeKept(l1, rank1, l', rank', k, elementary);
    TypeKept(l1, rank1, l', rank', v', elementary);
    Parts(l', id', rank', elementary);
  }

  lemma DisguiseList(l: Layout, rank: map<string, nat>, id: string, elementary: Sizes, l1: Layout,
                     rank1: map<string, nat>, b': string)
    returns (l': Layout, rank': map<string, nat>, id': string)
    requires WellFormed(l, rank, elementary) && id in l.types && l.types[id].DynamicArray?
             && l.types[id].base in l.types
    requires Lookalike(l, rank, l.types[id].base, l1, rank1, b', elementary)
    ensures Lookalike(l, rank, id, l', rank', id', elementary)
  {
    hide WellFormed;
    Parts(l, id, rank, elementary);
    Parts(l1, b', rank1, elementary);
    l', rank', id' := Over(l, rank, id, l1, rank1, l.types[id].(base := b'), elementary);
    TypeKept(l1, rank1, l', rank', b', elementary);
    Parts(l', id', rank', elementary);
  }

  lemma DisguiseStruct(l: Layout, rank: map<string, nat>, id: string, elementary: Sizes, i: nat, l1: Layout,
                       rank1: map<string, nat>, m': string)
    returns (l': Layout, rank': map<string, nat>, id': string)
    requires WellFormed(l, rank, elementary) && id in l.types && l.types[id].Struct?
    requires i < |l.types[id].members| && l.types[id].members[i].typeId in l.types
    requires Lookalike(l, rank, l.types[id].members[i].typeId, l1, rank1, m', elementary)
    ensures Lookalike(l, rank, id, l', rank', id', elementary)
  {
    hide WellFormed, StructName, Extent, CleanName;
    Parts(l, id, rank, elementary);
    Parts(l1, m', rank1, elementary);
    var Struct(name, bytes, ms) := l.types[id];
    var ms' := ms[i := ms[i].(typeId := m')];
    Parts(l1, ms[i].typeId, rank1, elementary);
    assert forall j :: 0 <= j < |ms| ==> Below(l, rank, ms[j].typeId, id) && ms[j].typeId in l.types;
    ExtentKept(l, l1, ms);
    RetypedExtent(l1, ms, i, m');
    l', rank', id' := Over(l, rank, id, l1, rank1, Struct(name, bytes, ms'), elementary);
    Parts(l', id', rank', elementary);
    TypeKept(l1, rank1, l', rank', m', elementary);
    RetypedMembers(l, rank, ms, id, l', rank', id', i, m', elementary);
  }

  lemma {:induction false} RetypedExtent(l: Layout, ms: seq<Var>, i: nat, m': string)
    requires i < |ms| && BytesOf(l, m') == BytesOf(l, ms[i].typeId)
    ensures Extent(l, ms[i := ms[i].(typeId := m')]) == Extent(l, ms)
  {
    var ms' := ms[i := ms[i].(typeId := m')];
    if i > 0 {
      assert ms'[1..] == ms[1..][i - 1 := ms[1..][i - 1].(typeId := m')];
      RetypedExtent(l, ms[1..], i - 1, m');
    } else {
      assert ms'[1..] == ms[1..];
    }
  }

  /** Of the fields one changes, and only in what its description does not show. */
  lemma {:induction false} RetypedMembers(l: Layout, rank: map<string, nat>, ms: seq<Var>, id: string, l': Layout,
                                          rank': map<string, nat>, id': string, i: nat, m': string, elementary: Sizes)
    requires WellFormed(l, rank, elementary) && WellFormed(l', rank', elementary) && Extends(l, rank, l', rank')
    requires id in l.types && id' in l'.types && i < |ms| && m' in l'.types && rank'[id'] == rank[id]
    requires forall j :: 0 <= j < |ms| ==> Below(l, rank, ms[j].typeId, id) && ms[j].typeId in l.types
    requires Below(l', rank', m', id')
    requires FullOf(l', m', rank') != FullOf(l, ms[i].typeId, rank)
    requires ShapeOf(l', m', rank') == ShapeOf(l, ms[i].typeId, rank)
    ensures var ms' := ms[i := ms[i].(typeId := m')];
            && (forall j :: 0 <= j < |ms| ==> Below(l', rank', ms'[j].typeId, id'))
            && PlacesOf(l', ms', rank', id') != PlacesOf(l, ms, rank, id)
            && FieldsOf(l', ms', rank', id') == FieldsOf(l, ms, rank, id)
    decreases |ms|
  {
    hide WellFormed, FullOf, ShapeOf;
    Parts(l, id, rank, elementary);
    Parts(l', id', rank', elementary);
    var ms' := ms[i := ms[i].(typeId := m')];
    if i > 0 {
      assert ms'[1..] == ms[1..][i - 1 := ms[1..][i - 1].(typeId := m')];
      RetypedMembers(l, rank, ms[1..], id, l', rank', id', i - 1, m', elementary);
      TypeKept(l, rank, l', rank', ms[0].typeId, elementary);
      assert PlacesOf(l', ms', rank', id')[1..] != PlacesOf(l, ms, rank, id)[1..];
    } else {
      assert ms'[1..] == ms[1..];
      RestKept(l, rank, ms[1..], id, l', rank', id', elementary);
      assert PlacesOf(l', ms', rank', id')[0] != PlacesOf(l, ms, rank, id)[0];
    }
  }

  lemma {:induction false} RestKept(l: Layout, rank: map<string, nat>, ms: seq<Var>, id: string, l': Layout,
                                    rank': map<string, nat>, id': string, elementary: Sizes)
    requires WellFormed(l, rank, elementary) && WellFormed(l', rank', elementary) && Extends(l, rank, l', rank')
    requires id in l.types && id' in l'.types && rank'[id'] == rank[id]
    requires forall j :: 0 <= j < |ms| ==> Below(l, rank, ms[j].typeId, id) && ms[j].typeId in l.types
    ensures forall j :: 0 <= j < |ms| ==> Below(l', rank', ms[j].typeId, id')
    ensures FieldsOf(l', ms, rank', id') == FieldsOf(l, ms, rank, id)
  {
    hide WellFormed, FullOf, ShapeOf;
    Parts(l, id, rank, elementary);
    Parts(l', id', rank', elementary);
    if ms != [] {
      TypeKept(l, rank, l', rank', ms[0].typeId, elementary);
      RestKept(l, rank, ms[1..], id, l', rank', id', elementary);
    }
  }
}
