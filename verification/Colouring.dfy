/** Greedy colouring of a conflict graph in identifier order, and the waves it yields. */
module Colouring {
  import opened Ids

  ghost predicate Symmetric(conflicts: map<Id, set<Id>>) {
    forall a, b :: a in conflicts && b in conflicts[a] ==> b in conflicts && a in conflicts[b]
  }

  /** Some node before position `i` that conflicts with node `i` has colour `c`. */
  ghost predicate Taken(order: seq<Id>, conflicts: map<Id, set<Id>>, colours: map<Id, nat>, i: nat, c: nat)
    requires i < |order| && order[i] in conflicts
  {
    exists j :: 0 <= j < i && order[j] in conflicts[order[i]] && order[j] in colours && colours[order[j]] == c
  }

  /** Node `i` has the least colour that its earlier neighbours leave free. */
  ghost predicate LeastFree(order: seq<Id>, conflicts: map<Id, set<Id>>, colours: map<Id, nat>, i: nat) {
    && i < |order| && order[i] in conflicts && order[i] in colours
    && !Taken(order, conflicts, colours, i, colours[order[i]])
    && (forall c: nat :: c < colours[order[i]] ==> Taken(order, conflicts, colours, i, c))
  }

  /** The colours of the first `count` nodes are the greedy ones. */
  ghost predicate GreedyUpTo(order: seq<Id>, conflicts: map<Id, set<Id>>, colours: map<Id, nat>, count: nat) {
    && count <= |order|
    && colours.Keys == Elements(order[..count])
    && (forall i :: 0 <= i < count ==> LeastFree(order, conflicts, colours, i))
  }

  ghost predicate Greedy(order: seq<Id>, conflicts: map<Id, set<Id>>, colours: map<Id, nat>) {
    GreedyUpTo(order, conflicts, colours, |order|)
  }

  /** The waves are the colour classes, each in order, up to the highest colour in use. */
  ghost predicate AreClasses(order: seq<Id>, colours: map<Id, nat>, waves: seq<seq<Id>>) {
    && order != [] && colours.Keys == Elements(order)
    && (forall n :: n in colours ==> colours[n] < |waves|)
    && (exists n :: n in colours && colours[n] == |waves| - 1)
    && (forall c :: 0 <= c < |waves| ==> IsClass(colours, c, waves[c]))
  }

  ghost predicate IsClass(colours: map<Id, nat>, c: nat, wave: seq<Id>) {
    Sorted(wave) && Distinct(wave) && forall n :: n in wave <==> n in colours && colours[n] == c
  }

  // ----- The algorithm -----

  method UsedColours(order: seq<Id>, i: nat, neighbours: set<Id>, colours: map<Id, nat>) returns (used: set<nat>)
    ensures forall c :: c in used <==> exists n :: n in neighbours && n in colours && colours[n] == c
  {
    used := {};
    var todo := neighbours;
    while todo != {}
      invariant todo <= neighbours
      invariant forall c :: c in used <==> exists n :: n in neighbours - todo && n in colours && colours[n] == c
      decreases |todo|
    {
      var n :| n in todo;
      ghost var before, seen := used, neighbours - todo;
      todo := todo - {n};
      assert neighbours - todo == seen + {n};
      if n in colours {
        used := used + {colours[n]};
      }
      forall c
        ensures c in used <==> exists m :: m in neighbours - todo && m in colours && colours[m] == c
      {
        if c in before {
          var m :| m in seen && m in colours && colours[m] == c;
          assert m in neighbours - todo;
        }
        if n in colours && colours[n] == c {
          assert n in neighbours - todo;
        }
      }
    }
    assert neighbours - todo == neighbours;
  }

  method LeastUnused(used: set<nat>) returns (c: nat)
    ensures c !in used && forall d: nat :: d < c ==> d in used
  {
    c := 0;
    ghost var below: set<nat> := {};
    while c in used
      invariant forall d: nat :: d < c ==> d in used
      invariant below <= used && forall d: nat :: d in below <==> d < c
      decreases used - below
    {
      below := below + {c};
      c := c + 1;
    }
  }

  method AssignColours(order: seq<Id>, conflicts: map<Id, set<Id>>) returns (colours: map<Id, nat>)
    requires Distinct(order) && conflicts.Keys == Elements(order)
    ensures Greedy(order, conflicts, colours)
  {
    colours := map[];
    for i := 0 to |order|
      invariant GreedyUpTo(order, conflicts, colours, i)
    {
      var n := order[i];
      assert n in Elements(order);
      var used := UsedColours(order, i, conflicts[n], colours);
      var c := LeastUnused(used);
      ColourNext(order, conflicts, colours, i, used, c);
      colours := colours[n := c];
    }
  }

  lemma ColourNext(order: seq<Id>, conflicts: map<Id, set<Id>>, colours: map<Id, nat>, i: nat, used: set<nat>, c: nat)
    requires Distinct(order) && i < |order| && order[i] in conflicts && GreedyUpTo(order, conflicts, colours, i)
    requires forall d :: d in used <==> exists n :: n in conflicts[order[i]] && n in colours && colours[n] == d
    requires c !in used && forall d: nat :: d < c ==> d in used
    ensures GreedyUpTo(order, conflicts, colours[order[i] := c], i + 1)
  {
    var after := colours[order[i] := c];
    assert order[..i + 1] == order[..i] + [order[i]];
    forall d: nat
      ensures Taken(order, conflicts, after, i, d) <==> d in used
    {
      if d in used {
        var n :| n in conflicts[order[i]] && n in colours && colours[n] == d;
        assert n in order[..i];
        var j :| 0 <= j < i && order[j] == n;
        assert order[j] in conflicts[order[i]] && order[j] in after && after[order[j]] == d;
      }
      if Taken(order, conflicts, after, i, d) {
        var j :| 0 <= j < i && order[j] in conflicts[order[i]] && order[j] in after && after[order[j]] == d;
        assert order[j] in order[..i];
      }
    }
    forall k | 0 <= k < i
      ensures LeastFree(order, conflicts, after, k)
    {
      EarlierUnchanged(order, conflicts, colours, after, i, k, c);
    }
  }

  lemma EarlierUnchanged(order: seq<Id>, conflicts: map<Id, set<Id>>, colours: map<Id, nat>, after: map<Id, nat>,
                         i: nat, k: nat, c: nat)
    requires Distinct(order) && k < i < |order| && GreedyUpTo(order, conflicts, colours, i)
    requires after == colours[order[i] := c]
    ensures LeastFree(order, conflicts, after, k)
  {
    assert LeastFree(order, conflicts, colours, k);
    forall d: nat
      ensures Taken(order, conflicts, after, k, d) <==> Taken(order, conflicts, colours, k, d)
    {
      assert forall j :: 0 <= j < k ==> order[j] != order[i];
    }
  }

  /** The waves of a list of nodes; the list's own order plays no part. */
  method ColorGraph(nodes: seq<Id>, conflicts: map<Id, set<Id>>) returns (waves: seq<seq<Id>>)
    requires nodes != [] && Distinct(nodes) && conflicts.Keys == Elements(nodes)
    ensures exists colours :: Greedy(Sort(nodes), conflicts, colours) && AreClasses(Sort(nodes), colours, waves)
  {
    var order := Sort(nodes);
    SameMultiset(order, nodes);
    assert Elements(order) == Elements(nodes);
    var colours := AssignColours(order, conflicts);
    assert order[..|order|] == order;
    waves := GroupByColour(order, colours);
    assert Greedy(order, conflicts, colours) && AreClasses(order, colours, waves);
  }

  method GroupByColour(order: seq<Id>, colours: map<Id, nat>) returns (waves: seq<seq<Id>>)
    requires order != [] && Sorted(order) && Distinct(order) && colours.Keys == Elements(order)
    ensures AreClasses(order, colours, waves)
  {
    assert order[0] in Elements(order);
    var maxColour := MaxColour(colours);
    waves := seq(maxColour + 1, _ => []);
    for i := 0 to |order|
      invariant |waves| == maxColour + 1
      invariant forall c :: 0 <= c < |waves| ==> IsClassOf(order, i, colours, c, waves[c])
    {
      var n := order[i];
      assert n in Elements(order);
      ClassGrows(order, i, colours, waves[colours[n]]);
      ghost var before := waves;
      waves := waves[colours[n] := waves[colours[n]] + [n]];
      forall c | 0 <= c < |waves|
        ensures IsClassOf(order, i + 1, colours, c, waves[c])
      {
        if c != colours[n] {
          ClassStays(order, i, colours, c, before[c]);
        }
      }
    }
    ghost var grouped := waves;
    for c := 0 to |waves|
      invariant |waves| == |grouped|
      invariant waves == grouped
    {
      assert IsClassOf(order, |order|, colours, c, waves[c]);
      SortedIsUnique(Sort(waves[c]), waves[c]);
      waves := waves[c := Sort(waves[c])];
    }
    forall c | 0 <= c < |waves|
      ensures IsClass(colours, c, waves[c])
    {
      assert IsClassOf(order, |order|, colours, c, waves[c]);
      assert forall n :: n in order <==> n in Elements(order);
    }
  }

  method MaxColour(colours: map<Id, nat>) returns (m: nat)
    requires colours.Keys != {}
    ensures forall n :: n in colours ==> colours[n] <= m
    ensures exists n :: n in colours && colours[n] == m
  {
    m := 0;
    var todo := colours.Keys;
    while todo != {}
      invariant todo <= colours.Keys
      invariant forall n :: n in colours && n !in todo ==> colours[n] <= m
      invariant (m == 0 && todo == colours.Keys) || exists n :: n in colours && colours[n] == m
      decreases |todo|
    {
      var n :| n in todo;
      if colours[n] > m {
        m := colours[n];
      }
      todo := todo - {n};
    }
  }

  /** Colour class `c` among the first `count` nodes. */
  ghost predicate IsClassOf(order: seq<Id>, count: nat, colours: map<Id, nat>, c: nat, wave: seq<Id>) {
    && count <= |order| && Sorted(wave) && Distinct(wave)
    && (forall n :: n in wave <==> n in order[..count] && n in colours && colours[n] == c)
  }

  lemma ClassGrows(order: seq<Id>, i: nat, colours: map<Id, nat>, wave: seq<Id>)
    requires Sorted(order) && Distinct(order) && i < |order| && order[i] in colours
    requires IsClassOf(order, i, colours, colours[order[i]], wave)
    ensures IsClassOf(order, i + 1, colours, colours[order[i]], wave + [order[i]])
  {
    assert order[..i + 1] == order[..i] + [order[i]];
    forall k | 0 <= k < |wave|
      ensures !Before(order[i], wave[k]) && wave[k] != order[i]
    {
      assert wave[k] in order[..i];
      var j :| 0 <= j < i && order[..i][j] == wave[k];
      assert order[j] == wave[k];
    }
  }

  lemma ClassStays(order: seq<Id>, i: nat, colours: map<Id, nat>, c: nat, wave: seq<Id>)
    requires i < |order| && IsClassOf(order, i, colours, c, wave)
    requires order[i] in colours && colours[order[i]] != c
    ensures IsClassOf(order, i + 1, colours, c, wave)
  {
    assert order[..i + 1] == order[..i] + [order[i]];
  }

  // ----- What the waves are good for -----

  /** Two greedy colourings of the same list are the same. */
  lemma GreedyIsUnique(order: seq<Id>, conflicts: map<Id, set<Id>>, a: map<Id, nat>, b: map<Id, nat>)
    requires Greedy(order, conflicts, a) && Greedy(order, conflicts, b)
    ensures a == b
  {
    assert order[..|order|] == order;
    forall i | 0 <= i < |order|
      ensures a[order[i]] == b[order[i]]
    {
      SameColour(order, conflicts, a, b, i);
    }
    forall n | n in a
      ensures a[n] == b[n]
    {
      assert n in Elements(order);
    }
  }

  lemma {:induction false} SameColour(order: seq<Id>, conflicts: map<Id, set<Id>>, a: map<Id, nat>, b: map<Id, nat>,
                                      i: nat)
    requires Greedy(order, conflicts, a) && Greedy(order, conflicts, b) && i < |order|
    ensures order[i] in a && order[i] in b && a[order[i]] == b[order[i]]
    decreases i
  {
    assert LeastFree(order, conflicts, a, i) && LeastFree(order, conflicts, b, i);
    forall j | 0 <= j < i
      ensures order[j] in a && order[j] in b && a[order[j]] == b[order[j]]
    {
      SameColour(order, conflicts, a, b, j);
    }
    forall c: nat
      ensures Taken(order, conflicts, a, i, c) <==> Taken(order, conflicts, b, i, c)
    {
    }
  }

  /** The waves depend on the set of nodes and the conflict graph only. */
  lemma WavesForgetOrder(nodes: seq<Id>, other: seq<Id>, conflicts: map<Id, set<Id>>,
                         a: map<Id, nat>, wavesA: seq<seq<Id>>, b: map<Id, nat>, wavesB: seq<seq<Id>>)
    requires multiset(nodes) == multiset(other)
    requires Greedy(Sort(nodes), conflicts, a) && AreClasses(Sort(nodes), a, wavesA)
    requires Greedy(Sort(other), conflicts, b) && AreClasses(Sort(other), b, wavesB)
    ensures wavesA == wavesB
  {
    SortForgetsOrder(nodes, other);
    GreedyIsUnique(Sort(nodes), conflicts, a, b);
    forall c | 0 <= c < |wavesA|
      ensures wavesA[c] == wavesB[c]
    {
      assert IsClass(a, c, wavesA[c]) && IsClass(a, c, wavesB[c]);
      SortedSetsAgree(wavesA[c], wavesB[c]);
    }
  }

  /** Neighbours never get the same colour. */
  lemma ColoursAreProper(order: seq<Id>, conflicts: map<Id, set<Id>>, colours: map<Id, nat>, a: Id, b: Id)
    requires Greedy(order, conflicts, colours) && Symmetric(conflicts)
    requires a in colours && b in colours && a != b && a in conflicts && b in conflicts[a]
    ensures colours[a] != colours[b]
  {
    assert order[..|order|] == order;
    assert a in Elements(order) && b in Elements(order);
    var i :| 0 <= i < |order| && order[i] == a;
    var j :| 0 <= j < |order| && order[j] == b;
    var earlier, later := if i < j then i else j, if i < j then j else i;
    assert order[earlier] in conflicts[order[later]];
    assert LeastFree(order, conflicts, colours, later);
    assert !Taken(order, conflicts, colours, later, colours[order[later]]);
  }

  /** Every colour below one in use is in use. */
  lemma ColoursAreContiguous(order: seq<Id>, conflicts: map<Id, set<Id>>, colours: map<Id, nat>, n: Id, c: nat)
    requires Greedy(order, conflicts, colours) && n in colours && c < colours[n]
    ensures exists m :: m in colours && colours[m] == c
  {
    assert order[..|order|] == order;
    assert n in Elements(order);
    var i :| 0 <= i < |order| && order[i] == n;
    assert LeastFree(order, conflicts, colours, i);
    assert Taken(order, conflicts, colours, i, c);
  }

  /** A node's colour is at most the number of its neighbours. */
  lemma ColourIsBounded(order: seq<Id>, conflicts: map<Id, set<Id>>, colours: map<Id, nat>, n: Id)
    requires Greedy(order, conflicts, colours) && n in colours
    ensures n in conflicts && colours[n] <= |conflicts[n]|
  {
    assert order[..|order|] == order;
    assert n in Elements(order);
    var i :| 0 <= i < |order| && order[i] == n;
    var witnesses := LowerNeighbours(order, conflicts, colours, i, colours[n]);
    CardinalityOfSubset(witnesses, conflicts[n]);
  }

  lemma CardinalityOfSubset<T>(a: set<T>, b: set<T>)
    requires a <= b
    ensures |a| <= |b|
  {
    assert b == a + (b - a);
  }

  /** Each lower colour is held by a neighbour of its own. */
  lemma {:induction false} LowerNeighbours(order: seq<Id>, conflicts: map<Id, set<Id>>, colours: map<Id, nat>, i: nat,
                                           c: nat)
    returns (witnesses: set<Id>)
    requires Greedy(order, conflicts, colours) && i < |order|
    requires LeastFree(order, conflicts, colours, i) && c <= colours[order[i]]
    ensures witnesses <= conflicts[order[i]] && |witnesses| == c
    ensures forall m :: m in witnesses ==> m in colours && colours[m] < c
    decreases c
  {
    if c == 0 {
      witnesses := {};
    } else {
      var fewer := LowerNeighbours(order, conflicts, colours, i, c - 1);
      assert Taken(order, conflicts, colours, i, c - 1);
      var j :| 0 <= j < i && order[j] in conflicts[order[i]] && order[j] in colours && colours[order[j]] == c - 1;
      witnesses := fewer + {order[j]};
    }
  }
}
