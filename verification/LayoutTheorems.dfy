/**
 What an answer without errors is worth: exactly when it keeps what the base stores, elements of fixed-size
 arrays included; that this carries along a chain of implementations; and two pairs of layouts it confuses.
 */
module LayoutTheorems {
  import opened Layout
  import opened CompiledLayout
  import opened LayoutCheck
  import opened FullLayout
  import opened LayoutVariants

  /** Every base variable is in the candidate at its slot and offset with the type it really has. */
  ghost predicate FullKept(base: Layout, cand: Layout, rb: map<string, nat>, rc: map<string, nat>)
    requires Acyclic(base, rb) && Acyclic(cand, rc)
  {
    forall v :: v in base.storage ==>
      exists c :: c in cand.storage && c.slot == v.slot && c.offset == v.offset
                  && FullOf(cand, c.typeId, rc) == FullOf(base, v.typeId, rb)
  }

  /** No variable's description ends at a fixed-size array whose label leaves its elements open. */
  ghost predicate SeesAll(l: Layout, rank: map<string, nat>, elementary: Sizes)
    requires Acyclic(l, rank)
  {
    forall v :: v in l.storage ==> !Blind(l, v.typeId, rank, elementary)
  }

  /**
   Soundness: an answer without errors keeps every base variable's storage, and every other variable of the
   candidate lies after all of it.
   */
  lemma AcceptedKeepsStorage(base: Layout, cand: Layout, rb: map<string, nat>, rc: map<string, nat>, elementary: Sizes)
    requires WellFormed(base, rb, elementary) && WellFormed(cand, rc, elementary) && Accepts(base, cand, rb, rc)
    requires SeesAll(base, rb, elementary)
    ensures FullKept(base, cand, rb, rc)
    ensures forall c, v :: c in cand.storage && v in base.storage && (forall u :: u in base.storage ==> At(u) != At(c))
              ==> v.slot + Slots(base, v) <= c.slot
  {
    hide Accepts, ShapeOf, FullOf, Entry, Blind;
    AcceptedKeepsShapes(base, cand, rb, rc, elementary);
    forall v | v in base.storage
      ensures exists c :: c in cand.storage && c.slot == v.slot && c.offset == v.offset
                          && FullOf(cand, c.typeId, rc) == FullOf(base, v.typeId, rb)
    {
      var c :| c in cand.storage && c.slot == v.slot && c.offset == v.offset
               && ShapeOf(cand, c.typeId, rc) == ShapeOf(base, v.typeId, rb);
      ShapeTells(base, v.typeId, rb, cand, c.typeId, rc, elementary);
    }
  }

  /** Whatever well-formed candidate the comparison accepts keeps the base's storage. */
  ghost predicate Safe(base: Layout, rb: map<string, nat>, elementary: Sizes)
    requires Acyclic(base, rb)
  {
    forall cand: Layout, rc: map<string, nat> ::
      WellFormed(cand, rc, elementary) && Accepts(base, cand, rb, rc) ==> FullKept(base, cand, rb, rc)
  }

  /** The same types under other variables. */
  lemma OtherVariables(l: Layout, rank: map<string, nat>, elementary: Sizes, vars: seq<Var>)
    requires WellFormed(l, rank, elementary) && DistinctPositions(vars) && forall v :: v in vars ==> v.typeId in l.types
    ensures WellFormed(Layout(vars, l.types), rank, elementary) && Extends(l, rank, Layout(vars, l.types), rank)
  {
    hide Entry, RefsBelow, DistinctPositions;
    var l' := Layout(vars, l.types);
    forall id | id in l'.types
      ensures id in rank && RefsBelow(l', rank, l'.types[id], id) && Entry(l', elementary, l'.types[id])
    {
      assert RefsBelow(l, rank, l.types[id], id) && Entry(l, elementary, l.types[id]);
      EntryKept(l, l', elementary, l.types[id]);
      RefsKept(l, rank, l', rank, l.types[id], id, id, elementary);
    }
  }

  lemma LookalikeParts(l: Layout, rank: map<string, nat>, id: string, l': Layout, rank': map<string, nat>, id': string,
                       elementary: Sizes)
    requires WellFormed(l, rank, elementary) && id in l.types && Lookalike(l, rank, id, l', rank', id', elementary)
    ensures WellFormed(l', rank', elementary) && Extends(l, rank, l', rank') && id' in l'.types
    ensures FullOf(l', id', rank') != FullOf(l, id, rank) && ShapeOf(l', id', rank') == ShapeOf(l, id, rank)
  {
  }

  /** One variable's type replaced by a lookalike. */
  lemma BlindIsFooled(base: Layout, rb: map<string, nat>, elementary: Sizes, v: Var)
    returns (cand: Layout, rc: map<string, nat>)
    requires WellFormed(base, rb, elementary) && v in base.storage && Blind(base, v.typeId, rb, elementary)
    ensures WellFormed(cand, rc, elementary) && Accepts(base, cand, rb, rc) && !FullKept(base, cand, rb, rc)
  {
    hide Entry, Blind, FullOf, ShapeOf, Accepts, Lookalike, Acyclic;
    var l', rank', id' := Disguise(base, rb, v.typeId, elementary);
    LookalikeParts(base, rb, v.typeId, l', rank', id', elementary);
    var i :| 0 <= i < |base.storage| && base.storage[i] == v;
    cand, rc := Layout(base.storage[i := v.(typeId := id')], l'.types), rank';
    OtherVariables(l', rank', elementary, cand.storage);
    TypeKept(l', rank', cand, rc, id', elementary);
    forall j | 0 <= j < |base.storage|
      ensures ShapeOf(cand, cand.storage[j].typeId, rc) == ShapeOf(base, base.storage[j].typeId, rb)
    {
      if j != i {
        var t := base.storage[j].typeId;
        assert base.storage[j] in base.storage;
        TypeKept(base, rb, l', rank', t, elementary);
        TypeKept(l', rank', cand, rc, t, elementary);
      }
    }
    SameShapesPass(base, cand, rb, rc, elementary);
    forall c | c in cand.storage && c.slot == v.slot && c.offset == v.offset
      ensures FullOf(cand, c.typeId, rc) != FullOf(base, v.typeId, rb)
    {
      var j :| 0 <= j < |cand.storage| && cand.storage[j] == c;
      assert j == i;
    }
  }

  /** Variables at the same positions with the same descriptions pass. */
  lemma SameShapesPass(base: Layout, cand: Layout, rb: map<string, nat>, rc: map<string, nat>, elementary: Sizes)
    requires WellFormed(base, rb, elementary) && WellFormed(cand, rc, elementary) && |cand.storage| == |base.storage|
    requires forall j :: 0 <= j < |base.storage| ==> At(cand.storage[j]) == At(base.storage[j])
    requires forall j :: 0 <= j < |base.storage| ==>
               ShapeOf(cand, cand.storage[j].typeId, rc) == ShapeOf(base, base.storage[j].typeId, rb)
    ensures Accepts(base, cand, rb, rc)
  {
    hide Entry, ShapeOf, Accepts, Acyclic, ByPosition, CanonicalType, End;
    AcceptsMeans(base, cand, rb, rc);
    ByPositionHolds(base.storage);
    ByPositionHolds(cand.storage);
    forall v | v in base.storage
      ensures Kept(base, cand, rb, rc, v)
    {
      var j :| 0 <= j < |base.storage| && base.storage[j] == v;
      assert cand.storage[j] in cand.storage;
      var c := ByPosition(cand.storage)[At(v)];
      var k :| 0 <= k < |cand.storage| && cand.storage[k] == c;
      assert k == j;
      CanonicalIsText(base, v.typeId, rb);
      CanonicalIsText(cand, c.typeId, rc);
    }
    forall c | c in cand.storage
      ensures At(c) in ByPosition(base.storage)
    {
      var j :| 0 <= j < |cand.storage| && cand.storage[j] == c;
      assert base.storage[j] in base.storage;
    }
  }

  /** Exactly when the comparison can be relied on: the base has no variable with a blind description. */
  lemma SafeExactlyWhenItSeesAll(base: Layout, rb: map<string, nat>, elementary: Sizes)
    requires WellFormed(base, rb, elementary)
    ensures Safe(base, rb, elementary) <==> SeesAll(base, rb, elementary)
  {
    hide Accepts, FullKept, Entry, Acyclic, Blind;
    if SeesAll(base, rb, elementary) {
      forall cand: Layout, rc: map<string, nat> | WellFormed(cand, rc, elementary) && Accepts(base, cand, rb, rc)
        ensures FullKept(base, cand, rb, rc)
      {
        AcceptedKeepsStorage(base, cand, rb, rc, elementary);
      }
    } else {
      var v :| v in base.storage && Blind(base, v.typeId, rb, elementary);
      var cand, rc := BlindIsFooled(base, rb, elementary, v);
    }
  }

  // ------------------------------------------------------------------ without value types of the program's own

  /** A struct is in the type. */
  ghost predicate HasStruct(l: Layout, id: string, rank: map<string, nat>)
    requires Acyclic(l, rank)
    decreases Rank(l, rank, id)
  {
    id in l.types &&
    match l.types[id]
    case Mapping(_, _, k, v) => HasStruct(l, k, rank) || HasStruct(l, v, rank)
    case DynamicArray(_, _, b) => HasStruct(l, b, rank)
    case Struct(_, _, _) => true
    case FixedArray(_, _, b) => HasStruct(l, b, rank)
    case Plain(_, _) => false
  }

  /** A struct is below a fixed-size array in the type. */
  ghost predicate StructInArray(l: Layout, id: string, rank: map<string, nat>)
    requires Acyclic(l, rank)
    decreases Rank(l, rank, id)
  {
    id in l.types && RefsBelow(l, rank, l.types[id], id) &&
    match l.types[id]
    case Mapping(_, _, k, v) => StructInArray(l, k, rank) || StructInArray(l, v, rank)
    case DynamicArray(_, _, b) => StructInArray(l, b, rank)
    case Struct(_, _, ms) => exists i :: 0 <= i < |ms| && StructInArray(l, ms[i].typeId, rank)
    case FixedArray(_, _, b) => HasStruct(l, b, rank)
    case Plain(_, _) => false
  }

  ghost predicate OnlyElementary(l: Layout, elementary: Sizes) {
    forall id :: id in l.types && l.types[id].Plain? ==> l.types[id].name in elementary
  }

  lemma {:induction false} LooseIsStruct(l: Layout, id: string, rank: map<string, nat>, elementary: Sizes, pinned: bool)
    requires Acyclic(l, rank) && OnlyElementary(l, elementary)
    ensures Loose(l, id, rank, elementary, pinned) <==> HasStruct(l, id, rank)
    decreases Rank(l, rank, id)
  {
    hide Slack;
    if id in l.types {
      assert RefsBelow(l, rank, l.types[id], id);
      match l.types[id]
      case Mapping(_, _, k, v) =>
        LooseIsStruct(l, k, rank, elementary, false);
        LooseIsStruct(l, v, rank, elementary, false);
      case DynamicArray(_, _, b) => LooseIsStruct(l, b, rank, elementary, false);
      case Struct(_, _, _) =>
      case FixedArray(_, _, b) => LooseIsStruct(l, b, rank, elementary, pinned);
      case Plain(_, _) =>
    }
  }

  lemma {:induction false} BlindIsStruct(l: Layout, id: string, rank: map<string, nat>, elementary: Sizes)
    requires Acyclic(l, rank) && OnlyElementary(l, elementary)
    ensures Blind(l, id, rank, elementary) <==> StructInArray(l, id, rank)
    decreases Rank(l, rank, id)
  {
    hide Slack;
    if id in l.types {
      assert RefsBelow(l, rank, l.types[id], id);
      match l.types[id]
      case Mapping(_, _, k, v) =>
        BlindIsStruct(l, k, rank, elementary);
        BlindIsStruct(l, v, rank, elementary);
      case DynamicArray(_, _, b) => BlindIsStruct(l, b, rank, elementary);
      case Struct(_, _, ms) =>
        forall i | 0 <= i < |ms|
          ensures Blind(l, ms[i].typeId, rank, elementary) <==> StructInArray(l, ms[i].typeId, rank)
        {
          if ms[i].typeId in l.types {
            BlindIsStruct(l, ms[i].typeId, rank, elementary);
          }
        }
      case FixedArray(_, _, b) =>
        LooseIsStruct(l, id, rank, elementary, true);
      case Plain(_, _) =>
    }
  }

  /** With the language's own value types only: exactly when no struct is below a fixed-size array. */
  lemma SafeExactlyWithoutStructsInArrays(base: Layout, rb: map<string, nat>, elementary: Sizes)
    requires WellFormed(base, rb, elementary) && OnlyElementary(base, elementary)
    ensures Safe(base, rb, elementary) <==> forall v :: v in base.storage ==> !StructInArray(base, v.typeId, rb)
  {
    hide Safe, Entry, Acyclic, Blind, StructInArray;
    SafeExactlyWhenItSeesAll(base, rb, elementary);
    forall v | v in base.storage
      ensures Blind(base, v.typeId, rb, elementary) <==> StructInArray(base, v.typeId, rb)
    {
      BlindIsStruct(base, v.typeId, rb, elementary);
    }
  }

  // ------------------------------------------------------------------ along a chain

  /**
   Along a chain of implementations, each checked against the one before, the last still stores what the
   first did, if only the first one's descriptions show all.
   */
  lemma ChainKeepsStorage(ls: seq<Layout>, ranks: seq<map<string, nat>>, elementary: Sizes)
    requires 0 < |ls| == |ranks| && WellFormed(ls[0], ranks[0], elementary) && SeesAll(ls[0], ranks[0], elementary)
    requires forall i, j ::
              0 <= i && j == i + 1 && j < |ls| ==> Upgradable(ls[i], ls[j], ranks[i], ranks[j], elementary)
    ensures var n := |ls| - 1;
            Upgradable(ls[0], ls[n], ranks[0], ranks[n], elementary) && FullKept(ls[0], ls[n], ranks[0], ranks[n])
  {
    hide Accepts, Entry, Acyclic, SeesAll, FullKept;
    ChainAccepted(ls, ranks, elementary);
    AcceptedKeepsStorage(ls[0], ls[|ls| - 1], ranks[0], ranks[|ls| - 1], elementary);
  }

  // ------------------------------------------------------------------ two pairs of layouts it confuses

  const WORDS: Sizes := map["uint256" := 32, "uint128" := 16]

  /** A layout with one array of two structs. */
  function StructArray(members: seq<Var>): Layout {
    Layout([Var("a", 0, 0, "array")],
           map["array" := FixedArray("struct S[2]", 64, "struct"), "struct" := Struct("struct S", 32, members),
               "full" := Plain("uint256", 32), "half" := Plain("uint128", 16)])
  }

  const STRUCT_RANK: map<string, nat> := map["array" := 2, "struct" := 1, "full" := 0, "half" := 0]

  /** A layout with one array of two values of the program's own type. */
  function ValueArray(size: nat): Layout {
    Layout([Var("a", 0, 0, "array")], map["array" := FixedArray("Price[2]", 32, "price"),
                                          "price" := Plain("Price", size)])
  }

  const VALUE_RANK: map<string, nat> := map["array" := 1, "price" := 0]

  /** At most two members of the first word. */
  predicate OneWord(ms: seq<Var>) {
    && 1 <= |ms| <= 2 && forall i :: 0 <= i < |ms| ==> CleanName(ms[i].name) && ms[i].slot == 0
                                                       && (ms[i].typeId == "full" || ms[i].typeId == "half")
  }

  lemma Labels()
    ensures ArrayName("struct S", 2) == "struct S[2]" && ArrayName("Price", 2) == "Price[2]"
    ensures StructName("struct S") && PlainName("Price") && PlainName("uint256") && PlainName("uint128")
  {
    assert Dec(2) == "2";
    assert "Price"[0] == 'P' && "uint256"[0] == 'u' && "uint128"[0] == 'u';
    assert "mapping("[0] == 'm' && "struct "[0] == 's' && "struct{"[0] == 's';
  }

  lemma OneWordExtent(l: Layout, ms: seq<Var>)
    requires OneWord(ms) && BytesOf(l, "full") == 32 && BytesOf(l, "half") == 16
    ensures Extent(l, ms) == 1
  {
    assert Extent(l, ms[1..]) <= 1 by {
      if |ms| == 2 {
        assert ms[1..][1..] == [];
      }
    }
  }

  lemma StructArrayWellFormed(ms: seq<Var>)
    requires OneWord(ms)
    ensures WellFormed(StructArray(ms), STRUCT_RANK, WORDS)
    ensures ShapeOf(StructArray(ms), "array", STRUCT_RANK) == Leaf("struct S[2]", 64)
    ensures FullOf(StructArray(ms), "array", STRUCT_RANK)
            == Array("struct S[2]", 64, FullOf(StructArray(ms), "struct", STRUCT_RANK))
    ensures var f := FullOf(StructArray(ms), "struct", STRUCT_RANK); f.Record? && |f.places| == |ms|
    ensures StructArray(ms).storage == [Var("a", 0, 0, "array")]
  {
    hide Dec, StructName, PlainName, ArrayName, Extent, CleanName;
    var l := StructArray(ms);
    Labels();
    OneWordExtent(l, ms);
    assert ArrayEntry("struct S[2]", 64, 2, "struct S", 32);
    assert Entry(l, WORDS, l.types["struct"]);
    assert Entry(l, WORDS, l.types["full"]) && Entry(l, WORDS, l.types["half"]);
    forall id | id in l.types
      ensures id in STRUCT_RANK && RefsBelow(l, STRUCT_RANK, l.types[id], id) && Entry(l, WORDS, l.types[id])
    {
    }
  }

  /** One variable at one place under one description, and another type. */
  lemma Confused(base: Layout, cand: Layout, rank: map<string, nat>, v: Var)
    requires WellFormed(base, rank, WORDS) && WellFormed(cand, rank, WORDS) && base.storage == cand.storage == [v]
    requires ShapeOf(base, v.typeId, rank) == ShapeOf(cand, v.typeId, rank)
    requires FullOf(base, v.typeId, rank) != FullOf(cand, v.typeId, rank)
    ensures Accepts(base, cand, rank, rank) && !FullKept(base, cand, rank, rank)
  {
    hide Accepts, FullOf, ShapeOf, Entry, Acyclic;
    SameShapesPass(base, cand, rank, rank, WORDS);
    assert v in base.storage;
  }

  /** The members of a struct in a fixed-size array may change unnoticed. */
  lemma ArrayElementsUnchecked()
    ensures var base := StructArray([Var("x", 0, 0, "full")]);
            var cand := StructArray([Var("x", 0, 0, "half"), Var("y", 0, 16, "half")]);
            && WellFormed(base, STRUCT_RANK, WORDS) && WellFormed(cand, STRUCT_RANK, WORDS)
            && Accepts(base, cand, STRUCT_RANK, STRUCT_RANK) && !FullKept(base, cand, STRUCT_RANK, STRUCT_RANK)
  {
    var ms, ms' := [Var("x", 0, 0, "full")], [Var("x", 0, 0, "half"), Var("y", 0, 16, "half")];
    assert OneWord(ms) && OneWord(ms') && |ms| != |ms'|;
    hide *;
    StructArrayWellFormed(ms);
    StructArrayWellFormed(ms');
    Confused(StructArray(ms), StructArray(ms'), STRUCT_RANK, Var("a", 0, 0, "array"));
  }

  lemma ValueArrayWellFormed(size: nat)
    requires size == 16 || size == 12
    ensures WellFormed(ValueArray(size), VALUE_RANK, WORDS)
    ensures ShapeOf(ValueArray(size), "array", VALUE_RANK) == Leaf("Price[2]", 32)
    ensures FullOf(ValueArray(size), "array", VALUE_RANK) == Array("Price[2]", 32, Value("Price", size))
    ensures ValueArray(size).storage == [Var("a", 0, 0, "array")]
  {
    hide Dec, StructName, PlainName, ArrayName;
    var l := ValueArray(size);
    Labels();
    assert ArrayEntry("Price[2]", 32, 2, "Price", size);
    assert "Price" !in WORDS by {
      assert "Price"[0] == 'P' && "uint256"[0] == 'u' && "uint128"[0] == 'u';
    }
    forall id | id in l.types
      ensures id in VALUE_RANK && RefsBelow(l, VALUE_RANK, l.types[id], id) && Entry(l, WORDS, l.types[id])
    {
    }
  }

  /** So may the size of a value type: two of sixteen bytes and two of twelve fill the same word. */
  lemma ValueTypesUnchecked()
    ensures var base, cand := ValueArray(16), ValueArray(12);
            && WellFormed(base, VALUE_RANK, WORDS) && WellFormed(cand, VALUE_RANK, WORDS)
            && Accepts(base, cand, VALUE_RANK, VALUE_RANK) && !FullKept(base, cand, VALUE_RANK, VALUE_RANK)
  {
    hide *;
    ValueArrayWellFormed(16);
    ValueArrayWellFormed(12);
    Confused(ValueArray(16), ValueArray(12), VALUE_RANK, Var("a", 0, 0, "array"));
  }
}
