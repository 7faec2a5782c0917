/**
 The comparison of a candidate implementation's storage with a baseline: what it reports, what the absence
 of errors guarantees, and that the guarantee composes along a chain of implementations.
 */
module LayoutCheck {
  import opened Layout
  import opened CompiledLayout

  datatype Level = Error | Warning
  datatype Kind = Missing | Changed | Renamed | Inside

  /** A finding about a base variable (Missing, Changed, Renamed) or a candidate's (Inside). */
  datatype Finding = Finding(level: Level, kind: Kind, about: Var)

  type Position = (nat, nat)

  function At(v: Var): Position {
    (v.slot, v.offset)
  }

  /** Variables by position; of several at one position the last. */
  function ByPosition(vars: seq<Var>): map<Position, Var> {
    if vars == [] then map[] else ByPosition(vars[..|vars| - 1])[At(vars[|vars| - 1]) := vars[|vars| - 1]]
  }

  /** Whole slots a variable spans; a type without an entry counts as one word. */
  function Slots(l: Layout, v: Var): nat {
    ((if v.typeId in l.types then l.types[v.typeId].bytes else 32) + 31) / 32
  }

  /** The first slot after everything in the layout. */
  function End(l: Layout, vars: seq<Var>): nat {
    if vars == [] then 0
    else
      var rest, v := End(l, vars[..|vars| - 1]), vars[|vars| - 1];
      if rest < v.slot + Slots(l, v) then v.slot + Slots(l, v) else rest
  }

  /** The type is described alike in both layouts. */
  ghost predicate SameType(l: Layout, v: Var, l': Layout, v': Var, rank: map<string, nat>, rank': map<string, nat>)
    requires Acyclic(l, rank) && Acyclic(l', rank')
  {
    CanonicalType(l, v.typeId, rank) == CanonicalType(l', v'.typeId, rank')
  }

  /** What is reported about a base variable. */
  ghost predicate BaseFinding(base: Layout, cand: Layout, rb: map<string, nat>, rc: map<string, nat>, f: Finding)
    requires Acyclic(base, rb) && Acyclic(cand, rc)
  {
    var v, index := f.about, ByPosition(cand.storage);
    && v in base.storage
    && if At(v) !in index then f.level == Error && f.kind == Missing
       else if !SameType(base, v, cand, index[At(v)], rb, rc) then f.level == Error && f.kind == Changed
       else index[At(v)].name != v.name && f.level == Warning && f.kind == Renamed
  }

  /** What is reported about a candidate's own variable. */
  ghost predicate ExtraFinding(base: Layout, cand: Layout, f: Finding) {
    && f.about in cand.storage && At(f.about) !in ByPosition(base.storage)
    && f.about.slot < End(base, base.storage) && f.level == Error && f.kind == Inside
  }

  ghost predicate IsFinding(base: Layout, cand: Layout, rb: map<string, nat>, rc: map<string, nat>, f: Finding)
    requires Acyclic(base, rb) && Acyclic(cand, rc)
  {
    BaseFinding(base, cand, rb, rc, f) || ExtraFinding(base, cand, f)
  }

  /** No finding of level error. */
  ghost predicate Accepts(base: Layout, cand: Layout, rb: map<string, nat>, rc: map<string, nat>)
    requires Acyclic(base, rb) && Acyclic(cand, rc)
  {
    forall f :: IsFinding(base, cand, rb, rc, f) ==> f.level == Warning
  }

  // ------------------------------------------------------------------ the comparison

  method IndexPositions(vars: seq<Var>) returns (m: map<Position, Var>)
    ensures m == ByPosition(vars)
  {
    m := map[];
    for i := 0 to |vars|
      invariant m == ByPosition(vars[..i])
    {
      assert vars[..i + 1][..i] == vars[..i];
      m := m[At(vars[i]) := vars[i]];
    }
    assert vars[..|vars|] == vars;
  }

  method FindEnd(l: Layout) returns (end: nat)
    ensures end == End(l, l.storage)
  {
    end := 0;
    for i := 0 to |l.storage|
      invariant end == End(l, l.storage[..i])
    {
      assert l.storage[..i + 1][..i] == l.storage[..i];
      var v := l.storage[i];
      var after := v.slot + Slots(l, v);
      if after > end {
        end := after;
      }
    }
    assert l.storage[..|l.storage|] == l.storage;
  }

  /** The checker reports exactly the findings above. */
  method CompareLayouts(base: Layout, cand: Layout, ghost rb: map<string, nat>, ghost rc: map<string, nat>)
    returns (out: seq<Finding>)
    requires Acyclic(base, rb) && Acyclic(cand, rc)
    ensures forall f :: f in out <==> IsFinding(base, cand, rb, rc, f)
  {
    hide CanonicalType, End, Acyclic;
    var index := IndexPositions(cand.storage);
    out := [];
    for i := 0 to |base.storage|
      invariant forall f :: f in out <==> BaseFinding(base, cand, rb, rc, f) && f.about in base.storage[..i]
    {
      var v := base.storage[i];
      assert base.storage[..i + 1] == base.storage[..i] + [v];
      if At(v) !in index {
        out := out + [Finding(Error, Missing, v)];
      } else {
        var c := index[At(v)];
        var want, got := CanonicalType(base, v.typeId, rb), CanonicalType(cand, c.typeId, rc);
        if got != want {
          out := out + [Finding(Error, Changed, v)];
        } else if c.name != v.name {
          out := out + [Finding(Warning, Renamed, v)];
        }
      }
    }
    assert base.storage[..|base.storage|] == base.storage;
    var end := FindEnd(base);
    var taken := IndexPositions(base.storage);
    ghost var first := out;
    for i := 0 to |cand.storage|
      invariant forall f :: f in out <==> f in first || (ExtraFinding(base, cand, f) && f.about in cand.storage[..i])
    {
      var c := cand.storage[i];
      assert cand.storage[..i + 1] == cand.storage[..i] + [c];
      if At(c) !in taken {
        if c.slot < end {
          out := out + [Finding(Error, Inside, c)];
        }
      }
    }
    assert cand.storage[..|cand.storage|] == cand.storage;
  }

  // ------------------------------------------------------------------ what acceptance means

  lemma {:induction false} ByPositionHolds(vars: seq<Var>)
    ensures forall p :: p in ByPosition(vars) <==> exists v :: v in vars && At(v) == p
    ensures forall p :: p in ByPosition(vars) ==> ByPosition(vars)[p] in vars && At(ByPosition(vars)[p]) == p
  {
    if vars != [] {
      var n := |vars| - 1;
      ByPositionHolds(vars[..n]);
      assert vars == vars[..n] + [vars[n]];
    }
  }

  /** Acceptance, variable by variable. */
  lemma AcceptsMeans(base: Layout, cand: Layout, rb: map<string, nat>, rc: map<string, nat>)
    requires Acyclic(base, rb) && Acyclic(cand, rc)
    ensures Accepts(base, cand, rb, rc) <==>
              && (forall v :: v in base.storage ==> Kept(base, cand, rb, rc, v))
              && (forall c :: c in cand.storage ==>
                    At(c) in ByPosition(base.storage) || c.slot >= End(base, base.storage))
  {
    hide CanonicalType, ByPosition, End, Acyclic;
    if Accepts(base, cand, rb, rc) {
      forall v | v in base.storage
        ensures Kept(base, cand, rb, rc, v)
      {
        assert !BaseFinding(base, cand, rb, rc, Finding(Error, Missing, v));
        assert !BaseFinding(base, cand, rb, rc, Finding(Error, Changed, v));
      }
      forall c | c in cand.storage
        ensures At(c) in ByPosition(base.storage) || c.slot >= End(base, base.storage)
      {
        assert !ExtraFinding(base, cand, Finding(Error, Inside, c));
      }
    }
  }

  /** Nothing at all is reported exactly when, besides, no base variable has changed its name. */
  lemma SilentExactlyWhen(base: Layout, cand: Layout, rb: map<string, nat>, rc: map<string, nat>)
    requires Acyclic(base, rb) && Acyclic(cand, rc)
    ensures (forall f :: !IsFinding(base, cand, rb, rc, f)) <==>
              && Accepts(base, cand, rb, rc)
              && (forall v :: v in base.storage ==>
                    At(v) in ByPosition(cand.storage) && ByPosition(cand.storage)[At(v)].name == v.name)
  {
    hide CanonicalType, ByPosition, End, Acyclic;
    if forall f :: !IsFinding(base, cand, rb, rc, f) {
      forall v | v in base.storage
        ensures At(v) in ByPosition(cand.storage) && ByPosition(cand.storage)[At(v)].name == v.name
      {
        assert !IsFinding(base, cand, rb, rc, Finding(Error, Missing, v));
        assert !IsFinding(base, cand, rb, rc, Finding(Error, Changed, v));
        assert !IsFinding(base, cand, rb, rc, Finding(Warning, Renamed, v));
      }
    }
  }

  /** The candidate has a variable of the same description at the same position. */
  ghost predicate Kept(base: Layout, cand: Layout, rb: map<string, nat>, rc: map<string, nat>, v: Var)
    requires Acyclic(base, rb) && Acyclic(cand, rc)
  {
    At(v) in ByPosition(cand.storage) && SameType(base, v, cand, ByPosition(cand.storage)[At(v)], rb, rc)
  }

  lemma {:induction false} EndBounds(l: Layout, vars: seq<Var>)
    ensures forall v :: v in vars ==> v.slot + Slots(l, v) <= End(l, vars)
    ensures End(l, vars) == 0 || exists v :: v in vars && v.slot + Slots(l, v) == End(l, vars)
  {
    hide Slots;
    if vars != [] {
      var n := |vars| - 1;
      EndBounds(l, vars[..n]);
      assert vars == vars[..n] + [vars[n]];
    }
  }

  /** Equal descriptions in well-formed layouts: equal shapes, and so equal sizes. */
  lemma SameShape(l: Layout, v: Var, l': Layout, v': Var, rank: map<string, nat>, rank': map<string, nat>,
                  elementary: Sizes)
    requires WellFormed(l, rank, elementary) && WellFormed(l', rank', elementary) && v in l.storage && v' in l'.storage
    requires SameType(l, v, l', v', rank, rank')
    ensures ShapeOf(l, v.typeId, rank) == ShapeOf(l', v'.typeId, rank') && Slots(l, v) == Slots(l', v')
  {
    hide CanonicalType, ShapeOf, Text, Clean, SizeOf;
    ShapeIsClean(l, v.typeId, rank, elementary);
    ShapeIsClean(l', v'.typeId, rank', elementary);
    CanonicalIsText(l, v.typeId, rank);
    CanonicalIsText(l', v'.typeId, rank');
    TextInjective(ShapeOf(l, v.typeId, rank), ShapeOf(l', v'.typeId, rank'));
  }

  /**
   After an answer without errors every base variable is in the candidate at its slot and offset with the
   shape the description shows, and every other candidate variable lies after all of the base's storage.
   */
  lemma AcceptedKeepsShapes(base: Layout, cand: Layout, rb: map<string, nat>, rc: map<string, nat>, elementary: Sizes)
    requires WellFormed(base, rb, elementary) && WellFormed(cand, rc, elementary) && Accepts(base, cand, rb, rc)
    ensures forall v :: v in base.storage ==>
              exists c :: c in cand.storage && c.slot == v.slot && c.offset == v.offset
                          && ShapeOf(cand, c.typeId, rc) == ShapeOf(base, v.typeId, rb)
    ensures forall c, v :: c in cand.storage && v in base.storage && (forall u :: u in base.storage ==> At(u) != At(c))
              ==> v.slot + Slots(base, v) <= c.slot
  {
    hide CanonicalType, ShapeOf, ByPosition, End, Accepts;
    AcceptsMeans(base, cand, rb, rc);
    ByPositionHolds(cand.storage);
    ByPositionHolds(base.storage);
    EndBounds(base, base.storage);
    forall v | v in base.storage
      ensures exists c :: c in cand.storage && c.slot == v.slot && c.offset == v.offset
                          && ShapeOf(cand, c.typeId, rc) == ShapeOf(base, v.typeId, rb)
    {
      assert Kept(base, cand, rb, rc, v);
      SameShape(base, v, cand, ByPosition(cand.storage)[At(v)], rb, rc, elementary);
    }
  }

  /** A layout is compatible with itself, and nothing at all is reported. */
  lemma AcceptsItself(l: Layout, rank: map<string, nat>, elementary: Sizes)
    requires WellFormed(l, rank, elementary)
    ensures Accepts(l, l, rank, rank) && forall f :: !IsFinding(l, l, rank, rank, f)
  {
    hide CanonicalType, ByPosition, End, ShapeOf;
    ByPositionHolds(l.storage);
    forall v | v in l.storage
      ensures At(v) in ByPosition(l.storage) && ByPosition(l.storage)[At(v)] == v
    {
    }
  }

  /** Acceptance composes. */
  lemma AcceptsCompose(a: Layout, b: Layout, c: Layout, ra: map<string, nat>, rb: map<string, nat>,
                       rc: map<string, nat>, elementary: Sizes)
    requires WellFormed(a, ra, elementary) && WellFormed(b, rb, elementary) && WellFormed(c, rc, elementary)
    requires Accepts(a, b, ra, rb) && Accepts(b, c, rb, rc)
    ensures Accepts(a, c, ra, rc)
  {
    hide CanonicalType, ByPosition, End, ShapeOf, Accepts, SizeOf, Clean;
    AcceptsMeans(a, b, ra, rb);
    AcceptsMeans(b, c, rb, rc);
    AcceptsMeans(a, c, ra, rc);
    ByPositionHolds(a.storage);
    ByPositionHolds(b.storage);
    EndsGrow(a, b, ra, rb, elementary);
    forall v | v in a.storage
      ensures Kept(a, c, ra, rc, v)
    {
      assert Kept(a, b, ra, rb, v);
      assert Kept(b, c, rb, rc, ByPosition(b.storage)[At(v)]);
    }
    forall x | x in c.storage
      ensures At(x) in ByPosition(a.storage) || x.slot >= End(a, a.storage)
    {
      if At(x) in ByPosition(b.storage) {
        assert ByPosition(b.storage)[At(x)] in b.storage;
      }
    }
  }

  /** An accepted candidate's storage ends no earlier. */
  lemma EndsGrow(a: Layout, b: Layout, ra: map<string, nat>, rb: map<string, nat>, elementary: Sizes)
    requires WellFormed(a, ra, elementary) && WellFormed(b, rb, elementary) && Accepts(a, b, ra, rb)
    ensures End(a, a.storage) <= End(b, b.storage)
  {
    hide CanonicalType, ByPosition, End, ShapeOf, Accepts, SizeOf, Clean;
    AcceptsMeans(a, b, ra, rb);
    ByPositionHolds(b.storage);
    EndBounds(a, a.storage);
    EndBounds(b, b.storage);
    if End(a, a.storage) > 0 {
      var v :| v in a.storage && v.slot + Slots(a, v) == End(a, a.storage);
      assert Kept(a, b, ra, rb, v);
      SameShape(a, v, b, ByPosition(b.storage)[At(v)], ra, rb, elementary);
    }
  }

  ghost predicate Upgradable(a: Layout, b: Layout, ra: map<string, nat>, rb: map<string, nat>, elementary: Sizes) {
    WellFormed(a, ra, elementary) && WellFormed(b, rb, elementary) && Accepts(a, b, ra, rb)
  }

  /** Along a chain of implementations, each checked against the one before, the last is compatible with the first. */
  lemma {:induction false} ChainAccepted(ls: seq<Layout>, ranks: seq<map<string, nat>>, elementary: Sizes)
    requires 0 < |ls| == |ranks| && WellFormed(ls[0], ranks[0], elementary)
    requires forall i, j ::
              0 <= i && j == i + 1 && j < |ls| ==> Upgradable(ls[i], ls[j], ranks[i], ranks[j], elementary)
    ensures Upgradable(ls[0], ls[|ls| - 1], ranks[0], ranks[|ls| - 1], elementary)
  {
    hide Accepts, WellFormed;
    var n := |ls| - 1;
    if n == 0 {
      AcceptsItself(ls[0], ranks[0], elementary);
    } else {
      ChainAccepted(ls[..n], ranks[..n], elementary);
      var p := n - 1;
      assert Upgradable(ls[p], ls[n], ranks[p], ranks[n], elementary);
      AcceptsCompose(ls[0], ls[p], ls[n], ranks[0], ranks[p], ranks[n], elementary);
    }
  }
}
