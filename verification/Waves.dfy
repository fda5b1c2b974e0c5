/** Splitting a layer into waves of units that may run together. */
module Waves {
  import opened Ids
  import opened Plans
  import opened Colouring

  // ----- When two units conflict -----

  /** The units named by the isolation regions that contain `id`. */
  ghost predicate OnSurface(regions: seq<seq<Id>>, id: Id, x: Id) {
    exists i :: 0 <= i < |regions| && id in regions[i] && x in regions[i]
  }

  ghost predicate IsUnit(units: seq<Unit>, id: Id) {
    exists i :: 0 <= i < |units| && units[i].id == id
  }

  /** Only units have a surface. */
  ghost predicate SharesSurface(rir: Rir, a: Id, b: Id) {
    && IsUnit(rir.units, a) && IsUnit(rir.units, b)
    && exists x :: OnSurface(rir.regions, a, x) && OnSurface(rir.regions, b, x)
  }

  ghost predicate UsesContract(units: seq<Unit>, id: Id, contract: Id) {
    exists i :: 0 <= i < |units| && units[i].id == id && contract in units[i].contracts
  }

  ghost predicate SharesContract(units: seq<Unit>, a: Id, b: Id) {
    exists c :: UsesContract(units, a, c) && UsesContract(units, b, c)
  }

  ghost predicate Conflict(rir: Rir, a: Id, b: Id) {
    a != b && (SharesSurface(rir, a, b) || SharesContract(rir.units, a, b))
  }

  method CollectSurfaces(id: Id, regions: seq<seq<Id>>) returns (surfaces: seq<Id>)
    ensures forall x :: x in surfaces <==> OnSurface(regions, id, x)
  {
    surfaces := [];
    for i := 0 to |regions|
      invariant forall x :: x in surfaces <==> OnSurface(regions[..i], id, x)
    {
      ghost var before := surfaces;
      if id in regions[i] {
        surfaces := surfaces + regions[i];
      }
      forall x
        ensures x in surfaces <==> OnSurface(regions[..i + 1], id, x)
      {
        SurfaceGrows(regions, id, x, i);
      }
    }
    assert regions[..|regions|] == regions;
  }

  lemma SurfaceGrows(regions: seq<seq<Id>>, id: Id, x: Id, i: nat)
    requires i < |regions|
    ensures OnSurface(regions[..i + 1], id, x) <==>
              OnSurface(regions[..i], id, x) || (id in regions[i] && x in regions[i])
  {
  }

  method HasOverlap(a: seq<Id>, b: seq<Id>) returns (overlap: bool)
    ensures overlap <==> exists x :: x in a && x in b
  {
    for i := 0 to |a|
      invariant forall x :: x in a[..i] ==> x !in b
    {
      for j := 0 to |b|
        invariant a[i] !in b[..j]
      {
        if a[i] == b[j] {
          assert a[i] in a && a[i] in b;
          return true;
        }
      }
      assert b[..|b|] == b;
    }
    assert a[..|a|] == a;
    overlap := false;
  }

  /** The contract names that the inputs of unit `id` use. */
  ghost predicate Collected(units: seq<Unit>, id: Id, contracts: set<Id>) {
    forall c :: c in contracts <==> UsesContract(units, id, c)
  }

  lemma ContractsGrow(units: seq<Unit>, id: Id, i: nat, before: set<Id>, after: set<Id>)
    requires i < |units| && Collected(units[..i], id, before)
    requires after == if units[i].id == id then before + Elements(units[i].contracts) else before
    ensures Collected(units[..i + 1], id, after)
  {
  }

  method HasDataFlowConflict(a: Id, b: Id, units: seq<Unit>) returns (conflict: bool)
    ensures conflict <==> SharesContract(units, a, b)
  {
    var contractsA, contractsB := {}, {};
    for i := 0 to |units|
      invariant Collected(units[..i], a, contractsA) && Collected(units[..i], b, contractsB)
    {
      ghost var beforeA, beforeB := contractsA, contractsB;
      var u := units[i];
      for j := 0 to |u.contracts|
        invariant contractsA == if u.id == a then beforeA + Elements(u.contracts[..j]) else beforeA
        invariant contractsB == if u.id == b then beforeB + Elements(u.contracts[..j]) else beforeB
      {
        assert u.contracts[..j + 1] == u.contracts[..j] + [u.contracts[j]];
        if u.id == a {
          contractsA := contractsA + {u.contracts[j]};
        }
        if u.id == b {
          contractsB := contractsB + {u.contracts[j]};
        }
      }
      assert u.contracts[..|u.contracts|] == u.contracts;
      ContractsGrow(units, a, i, beforeA, contractsA);
      ContractsGrow(units, b, i, beforeB, contractsB);
    }
    assert units[..|units|] == units;
    conflict := Meet(contractsA, contractsB);
  }

  method Meet(a: set<Id>, b: set<Id>) returns (common: bool)
    ensures common <==> exists c :: c in a && c in b
  {
    var todo := a;
    while todo != {}
      invariant todo <= a
      invariant forall c :: c in a && c !in todo ==> c !in b
      decreases |todo|
    {
      var c :| c in todo;
      if c in b {
        return true;
      }
      todo := todo - {c};
    }
    common := false;
  }

  // ----- The conflict graph of a layer -----

  ghost predicate IsConflictGraph(rir: Rir, layer: seq<Id>, conflicts: map<Id, set<Id>>) {
    && conflicts.Keys == Elements(layer)
    && (forall a, b :: a in layer ==> (b in conflicts[a] <==> b in layer && Conflict(rir, a, b)))
  }

  ghost predicate SurfacesOf(rir: Rir, surfaces: map<Id, seq<Id>>) {
    && (forall id :: id in surfaces <==> IsUnit(rir.units, id))
    && (forall id, x :: id in surfaces ==> (x in surfaces[id] <==> OnSurface(rir.regions, id, x)))
  }

  method AllSurfaces(rir: Rir) returns (surfaces: map<Id, seq<Id>>)
    ensures SurfacesOf(rir, surfaces)
  {
    surfaces := map[];
    for i := 0 to |rir.units|
      invariant forall id :: id in surfaces <==> exists j :: 0 <= j < i && rir.units[j].id == id
      invariant forall id, x :: id in surfaces ==> (x in surfaces[id] <==> OnSurface(rir.regions, id, x))
    {
      var own := CollectSurfaces(rir.units[i].id, rir.regions);
      surfaces := surfaces[rir.units[i].id := own];
    }
  }

  function Lookup(surfaces: map<Id, seq<Id>>, id: Id): seq<Id> {
    if id in surfaces then surfaces[id] else []
  }

  /** Whether the loops over pairs have passed the pair at positions `p` and `q`. */
  predicate Passed(i: nat, j: nat, p: nat, q: nat) {
    (p < q && (p < i || (p == i && q < j))) || (q < p && (q < i || (q == i && p < j)))
  }

  ghost predicate PairsDone(rir: Rir, layer: seq<Id>, i: nat, j: nat, conflicts: map<Id, set<Id>>) {
    && conflicts.Keys == Elements(layer)
    && (forall n :: n in conflicts ==> conflicts[n] <= Elements(layer))
    && (forall p, q {:trigger PairDone(rir, layer, i, j, conflicts, p, q)} ::
          0 <= p < |layer| && 0 <= q < |layer| ==> PairDone(rir, layer, i, j, conflicts, p, q))
  }

  ghost predicate PairDone(rir: Rir, layer: seq<Id>, i: nat, j: nat, conflicts: map<Id, set<Id>>, p: nat, q: nat)
    requires p < |layer| && q < |layer|
  {
    layer[p] in conflicts ==>
      (layer[q] in conflicts[layer[p]] <==> Passed(i, j, p, q) && Conflict(rir, layer[p], layer[q]))
  }

  lemma ConflictIsSymmetric(rir: Rir, a: Id, b: Id)
    ensures Conflict(rir, a, b) <==> Conflict(rir, b, a)
  {
  }

  lemma OnePairMore(rir: Rir, layer: seq<Id>, i: nat, j: nat, before: map<Id, set<Id>>, after: map<Id, set<Id>>)
    requires Distinct(layer) && i < j < |layer| && PairsDone(rir, layer, i, j, before)
    requires layer[i] in before && layer[j] in before
    requires after == if Conflict(rir, layer[i], layer[j])
                      then Linked(before, layer[i], layer[j])
                      else before
    ensures PairsDone(rir, layer, i, j + 1, after)
  {
    ConflictIsSymmetric(rir, layer[i], layer[j]);
    assert layer[i] in Elements(layer) && layer[j] in Elements(layer);
    var next := j + 1;
    forall p, q | 0 <= p < |layer| && 0 <= q < |layer|
      ensures PairDone(rir, layer, i, next, after, p, q)
    {
      assert PairDone(rir, layer, i, j, before, p, q);
    }
  }

  lemma AllPairsDone(rir: Rir, layer: seq<Id>, conflicts: map<Id, set<Id>>)
    requires PairsDone(rir, layer, |layer|, |layer| + 1, conflicts)
    ensures IsConflictGraph(rir, layer, conflicts)
  {
    forall a, b | a in layer
      ensures b in conflicts[a] <==> b in layer && Conflict(rir, a, b)
    {
      assert a in Elements(layer) && (b in layer <==> b in Elements(layer));
      if b in layer {
        var p: nat, q: nat :| p < |layer| && q < |layer| && layer[p] == a && layer[q] == b;
        assert PairDone(rir, layer, |layer|, |layer| + 1, conflicts, p, q);
      }
    }
  }

  lemma NextRow(rir: Rir, layer: seq<Id>, i: nat, conflicts: map<Id, set<Id>>)
    requires i < |layer| && PairsDone(rir, layer, i, |layer|, conflicts)
    ensures PairsDone(rir, layer, i + 1, i + 2, conflicts)
  {
    var row, start := i + 1, i + 2;
    forall p, q | 0 <= p < |layer| && 0 <= q < |layer|
      ensures PairDone(rir, layer, row, start, conflicts, p, q)
    {
      assert PairDone(rir, layer, i, |layer|, conflicts, p, q);
    }
  }

  method NoConflicts(layer: seq<Id>) returns (conflicts: map<Id, set<Id>>)
    ensures conflicts.Keys == Elements(layer)
    ensures forall n :: n in conflicts ==> conflicts[n] == {}
  {
    conflicts := map[];
    for i := 0 to |layer|
      invariant conflicts.Keys == Elements(layer[..i])
      invariant forall n :: n in conflicts ==> conflicts[n] == {}
    {
      assert layer[..i + 1] == layer[..i] + [layer[i]];
      conflicts := conflicts[layer[i] := {}];
    }
    assert layer[..|layer|] == layer;
  }

  lemma NoPairsYet(rir: Rir, layer: seq<Id>, conflicts: map<Id, set<Id>>)
    requires conflicts.Keys == Elements(layer)
    requires forall n :: n in conflicts ==> conflicts[n] == {}
    ensures PairsDone(rir, layer, 0, 1, conflicts)
  {
  }

  /** Compares node `i` with every later node of the layer. */
  method CompareRow(layer: seq<Id>, i: nat, rir: Rir, surfaces: map<Id, seq<Id>>, conflicts0: map<Id, set<Id>>)
    returns (conflicts: map<Id, set<Id>>)
    requires Distinct(layer) && i < |layer| && SurfacesOf(rir, surfaces)
    requires PairsDone(rir, layer, i, i + 1, conflicts0)
    ensures PairsDone(rir, layer, i + 1, i + 2, conflicts)
  {
    conflicts := conflicts0;
    for j := i + 1 to |layer|
      invariant PairsDone(rir, layer, i, j, conflicts)
    {
      HaveEntries(rir, layer, i, j, conflicts);
      ghost var before := conflicts;
      conflicts := ComparePair(rir, surfaces, layer[i], layer[j], conflicts);
      OnePairMore(rir, layer, i, j, before, conflicts);
    }
    NextRow(rir, layer, i, conflicts);
  }

  lemma HaveEntries(rir: Rir, layer: seq<Id>, i: nat, j: nat, conflicts: map<Id, set<Id>>)
    requires Distinct(layer) && i < j < |layer| && PairsDone(rir, layer, i, j, conflicts)
    ensures layer[i] in conflicts && layer[j] in conflicts && layer[i] != layer[j]
  {
    assert layer[i] in Elements(layer) && layer[j] in Elements(layer);
  }

  method BuildConflictGraph(layer: seq<Id>, rir: Rir) returns (conflicts: map<Id, set<Id>>)
    requires Distinct(layer)
    ensures IsConflictGraph(rir, layer, conflicts)
  {
    conflicts := NoConflicts(layer);
    NoPairsYet(rir, layer, conflicts);
    var surfaces := AllSurfaces(rir);
    for i := 0 to |layer|
      invariant PairsDone(rir, layer, i, i + 1, conflicts)
    {
      conflicts := CompareRow(layer, i, rir, surfaces, conflicts);
    }
    AllPairsDone(rir, layer, conflicts);
  }

  function Linked(conflicts: map<Id, set<Id>>, a: Id, b: Id): map<Id, set<Id>>
    requires a in conflicts && b in conflicts
  {
    conflicts[a := conflicts[a] + {b}][b := conflicts[b] + {a}]
  }

  method ComparePair(rir: Rir, surfaces: map<Id, seq<Id>>, a: Id, b: Id, conflicts0: map<Id, set<Id>>)
    returns (conflicts: map<Id, set<Id>>)
    requires SurfacesOf(rir, surfaces) && a != b && a in conflicts0 && b in conflicts0
    ensures conflicts == if Conflict(rir, a, b) then Linked(conflicts0, a, b) else conflicts0
  {
    conflicts := conflicts0;
    var overlap := HasOverlap(Lookup(surfaces, a), Lookup(surfaces, b));
    if overlap {
      conflicts := conflicts[a := conflicts[a] + {b}];
      conflicts := conflicts[b := conflicts[b] + {a}];
    }
    var dataFlow := HasDataFlowConflict(a, b, rir.units);
    if dataFlow {
      conflicts := conflicts[a := conflicts[a] + {b}];
      conflicts := conflicts[b := conflicts[b] + {a}];
    }
    OverlapIsSharedSurface(rir, surfaces, a, b);
  }

  lemma OverlapIsSharedSurface(rir: Rir, surfaces: map<Id, seq<Id>>, a: Id, b: Id)
    requires SurfacesOf(rir, surfaces)
    ensures (exists x :: x in Lookup(surfaces, a) && x in Lookup(surfaces, b)) <==> SharesSurface(rir, a, b)
  {
    if SharesSurface(rir, a, b) {
      var x :| OnSurface(rir.regions, a, x) && OnSurface(rir.regions, b, x);
      assert x in Lookup(surfaces, a) && x in Lookup(surfaces, b);
    }
    if x :| x in Lookup(surfaces, a) && x in Lookup(surfaces, b) {
      assert OnSurface(rir.regions, a, x) && OnSurface(rir.regions, b, x);
    }
  }

  // ----- The waves of a layer -----

  /** The units of the layer that conflict with each of its units. */
  ghost function Conflicts(rir: Rir, layer: seq<Id>): map<Id, set<Id>> {
    map a | a in layer :: set b | b in layer && Conflict(rir, a, b)
  }

  lemma ConflictGraphIs(rir: Rir, layer: seq<Id>, conflicts: map<Id, set<Id>>)
    requires IsConflictGraph(rir, layer, conflicts)
    ensures conflicts == Conflicts(rir, layer) && Symmetric(conflicts)
  {
    forall a | a in conflicts
      ensures conflicts[a] == Conflicts(rir, layer)[a]
    {
      assert a in Elements(layer);
    }
    forall a, b | a in conflicts && b in conflicts[a]
      ensures b in conflicts && a in conflicts[b]
    {
      assert a in Elements(layer);
      assert b in Elements(layer);
      ConflictIsSymmetric(rir, a, b);
    }
  }

  /** The waves are the greedy colour classes of the layer's conflict graph. */
  ghost predicate AreWaves(rir: Rir, layer: seq<Id>, waves: seq<seq<Id>>) {
    exists colours :: Colours(rir, layer, waves, colours)
  }

  ghost predicate Colours(rir: Rir, layer: seq<Id>, waves: seq<seq<Id>>, colours: map<Id, nat>) {
    Greedy(Sort(layer), Conflicts(rir, layer), colours) && AreClasses(Sort(layer), colours, waves)
  }

  method LayerWaves(rir: Rir, layer: seq<Id>) returns (waves: seq<seq<Id>>)
    requires layer != [] && Distinct(layer)
    ensures AreWaves(rir, layer, waves)
  {
    var conflicts := BuildConflictGraph(layer, rir);
    ConflictGraphIs(rir, layer, conflicts);
    waves := ColorGraph(layer, conflicts);
    ghost var colours :| Greedy(Sort(layer), conflicts, colours) && AreClasses(Sort(layer), colours, waves);
    assert Colours(rir, layer, waves, colours);
  }

  /** Every unit of the layer is in exactly one wave, no wave is empty, and no wave holds two
      units that conflict. */
  ghost predicate Splits(rir: Rir, layer: seq<Id>, waves: seq<seq<Id>>) {
    && (forall n :: n in layer <==> exists c :: 0 <= c < |waves| && n in waves[c])
    && (forall c, d, n :: 0 <= c < |waves| && 0 <= d < |waves| && n in waves[c] && n in waves[d] ==> c == d)
    && (forall c :: 0 <= c < |waves| ==> waves[c] != [] && Sorted(waves[c]) && Distinct(waves[c]))
    && (forall c :: 0 <= c < |waves| ==> ConflictFree(rir, waves[c]))
  }

  ghost predicate ConflictFree(rir: Rir, wave: seq<Id>) {
    forall a, b :: a in wave && b in wave ==> !Conflict(rir, a, b)
  }

  lemma WavesSplit(rir: Rir, layer: seq<Id>, waves: seq<seq<Id>>)
    requires Distinct(layer) && AreWaves(rir, layer, waves)
    ensures Splits(rir, layer, waves)
  {
    var colours :| Colours(rir, layer, waves, colours);
    var order, conflicts := Sort(layer), Conflicts(rir, layer);
    SameMultiset(order, layer);
    forall n
      ensures n in layer <==> n in colours
    {
      assert n in order <==> n in Elements(order);
    }
    forall n | n in layer
      ensures exists c :: 0 <= c < |waves| && n in waves[c]
    {
      assert IsClass(colours, colours[n], waves[colours[n]]);
    }
    forall c, n | 0 <= c < |waves| && n in waves[c]
      ensures n in colours && colours[n] == c
    {
      assert IsClass(colours, c, waves[c]);
    }
    forall c | 0 <= c < |waves|
      ensures waves[c] != [] && Sorted(waves[c]) && Distinct(waves[c]) && ConflictFree(rir, waves[c])
    {
      assert IsClass(colours, c, waves[c]);
      ClassIsInhabited(order, conflicts, colours, waves, c);
      ClassIsConflictFree(rir, layer, colours, waves[c]);
    }
  }

  lemma ClassIsInhabited(order: seq<Id>, conflicts: map<Id, set<Id>>, colours: map<Id, nat>, waves: seq<seq<Id>>,
                         c: nat)
    requires Greedy(order, conflicts, colours) && AreClasses(order, colours, waves) && c < |waves|
    ensures waves[c] != []
  {
    var top :| top in colours && colours[top] == |waves| - 1;
    if c < colours[top] {
      ColoursAreContiguous(order, conflicts, colours, top, c);
    }
    var n :| n in colours && colours[n] == c;
    assert IsClass(colours, c, waves[c]);
    assert n in waves[c];
  }

  lemma ClassIsConflictFree(rir: Rir, layer: seq<Id>, colours: map<Id, nat>, wave: seq<Id>)
    requires Greedy(Sort(layer), Conflicts(rir, layer), colours)
    requires forall n :: n in wave ==> n in layer && n in colours
    requires forall a, b :: a in wave && b in wave ==> colours[a] == colours[b]
    ensures ConflictFree(rir, wave)
  {
    var conflicts := Conflicts(rir, layer);
    assert IsConflictGraph(rir, layer, conflicts);
    ConflictGraphIs(rir, layer, conflicts);
    forall a, b | a in wave && b in wave
      ensures !Conflict(rir, a, b)
    {
      if Conflict(rir, a, b) {
        ColoursAreProper(Sort(layer), conflicts, colours, a, b);
      }
    }
  }

  /** A layer needs no more waves than the largest number of conflicts of one unit, plus one. */
  lemma WaveCountIsBounded(rir: Rir, layer: seq<Id>, waves: seq<seq<Id>>)
    requires AreWaves(rir, layer, waves)
    ensures exists n :: n in layer && |waves| <= |Conflicts(rir, layer)[n]| + 1
  {
    var colours :| Colours(rir, layer, waves, colours);
    var n :| n in colours && colours[n] == |waves| - 1;
    ColourIsBounded(Sort(layer), Conflicts(rir, layer), colours, n);
  }

  /** Units that share nothing run together. */
  lemma NoConflictsOneWave(rir: Rir, layer: seq<Id>, waves: seq<seq<Id>>)
    requires Distinct(layer) && AreWaves(rir, layer, waves)
    requires forall a, b :: !Conflict(rir, a, b)
    ensures |waves| == 1 && forall n :: n in waves[0] <==> n in layer
  {
    WavesSplit(rir, layer, waves);
    WaveCountIsBounded(rir, layer, waves);
    var n :| n in layer && |waves| <= |Conflicts(rir, layer)[n]| + 1;
    assert Conflicts(rir, layer)[n] == {};
  }

  lemma NothingShared(rir: Rir, a: Id, b: Id)
    requires rir.regions == [] && forall i :: 0 <= i < |rir.units| ==> rir.units[i].contracts == []
    ensures !Conflict(rir, a, b)
  {
  }

  lemma ConflictsForgetOrder(rir: Rir, layer: seq<Id>, other: seq<Id>)
    requires forall n :: n in layer <==> n in other
    ensures Conflicts(rir, layer) == Conflicts(rir, other)
  {
    var a, b := Conflicts(rir, layer), Conflicts(rir, other);
    assert a.Keys == b.Keys;
    forall n | n in layer
      ensures a[n] == b[n]
    {
    }
  }

  /** The waves do not depend on the order in which the layer lists its units. */
  lemma WavesAreDetermined(rir: Rir, layer: seq<Id>, other: seq<Id>, a: seq<seq<Id>>, b: seq<seq<Id>>)
    requires multiset(layer) == multiset(other)
    requires AreWaves(rir, layer, a) && AreWaves(rir, other, b)
    ensures a == b
  {
    SameMultiset(layer, other);
    ConflictsForgetOrder(rir, layer, other);
    var x :| Colours(rir, layer, a, x);
    var y :| Colours(rir, other, b, y);
    WavesForgetOrder(layer, other, Conflicts(rir, layer), x, a, y, b);
  }

  /** Two units conflict exactly if some region that holds the first and some region that holds the
      second have a member in common, or both name the same input contract. */
  lemma ConflictIff(rir: Rir, a: Id, b: Id)
    requires a != b
    ensures Conflict(rir, a, b) <==>
              || ((exists k :: 0 <= k < |rir.units| && rir.units[k].id == a)
                  && (exists k :: 0 <= k < |rir.units| && rir.units[k].id == b)
                  && exists i, j, x :: 0 <= i < |rir.regions| && 0 <= j < |rir.regions|
                                       && a in rir.regions[i] && b in rir.regions[j]
                                       && x in rir.regions[i] && x in rir.regions[j])
              || (exists i, j, c :: 0 <= i < |rir.units| && 0 <= j < |rir.units|
                                    && rir.units[i].id == a && rir.units[j].id == b
                                    && c in rir.units[i].contracts && c in rir.units[j].contracts)
  {
    if i, j, x :| 0 <= i < |rir.regions| && 0 <= j < |rir.regions| && a in rir.regions[i] && b in rir.regions[j]
                  && x in rir.regions[i] && x in rir.regions[j] {
      assert OnSurface(rir.regions, a, x) && OnSurface(rir.regions, b, x);
    }
    if i, j, c :| 0 <= i < |rir.units| && 0 <= j < |rir.units| && rir.units[i].id == a && rir.units[j].id == b
                  && c in rir.units[i].contracts && c in rir.units[j].contracts {
      assert UsesContract(rir.units, a, c) && UsesContract(rir.units, b, c);
    }
  }
}
