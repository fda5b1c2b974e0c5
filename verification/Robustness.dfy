/** When dependency edges are respected whatever dispatch answers. */
module Robustness {
  import opened Ids
  import opened Plans
  import opened Wiring
  import opened Statuses
  import opened Runs

  /** No unit succeeds while a unit it depends on by an edge does not. */
  ghost predicate DependenciesSucceed(ceg: Ceg, d: Dispatch)
    requires Backward(ceg)
  {
    forall i :: 0 <= i < |ceg.edges| && JoinsNodes(ceg, ceg.edges[i]) && Meaning(ceg, d, ceg.edges[i].to).Success? ==>
      Meaning(ceg, d, ceg.edges[i].from).Success?
  }

  predicate JoinsNodes(ceg: Ceg, e: Edge) {
    e.kind.Dependency? && e.from in ceg.nodeMap && e.to in ceg.nodeMap
  }

  /** By the rules alone, node `n` can succeed although node `u` does not: its rule can be met by
      nodes that can do so too. */
  ghost predicate SucceedsWithout(ceg: Ceg, u: Id, n: Id)
    requires Backward(ceg) && n in ceg.nodeMap
    decreases ceg.nodeMap[n].layer
  {
    var a := ceg.nodeMap[n].activation;
    assert LooksBack(ceg, n);
    n != u &&
    match a.condition
    case AllSuccess => forall c :: c in a.required ==> c in a.Candidates() && SucceedsWithout(ceg, u, c)
    case AnySuccess => exists c :: c in a.Candidates() && SucceedsWithout(ceg, u, c)
    case Other(_) => false
  }

  /** No dependency edge leads to a node that can succeed without the edge's source. */
  ghost predicate Robust(ceg: Ceg)
    requires Backward(ceg)
  {
    forall i :: 0 <= i < |ceg.edges| && JoinsNodes(ceg, ceg.edges[i]) ==>
      !SucceedsWithout(ceg, ceg.edges[i].from, ceg.edges[i].to)
  }

  /** The dispatch in which only `u` fails. */
  function OnlyFails(u: Id): Dispatch {
    (n: Id) => Answered(if n == u then Failure else Success, false)
  }

  /** A node that succeeded while `u` did not could do so by the rules. */
  lemma {:induction false} SuccessWithout(ceg: Ceg, d: Dispatch, u: Id, n: Id)
    requires Backward(ceg) && u in ceg.nodeMap && n in ceg.nodeMap
    requires Meaning(ceg, d, n).Success? && !Meaning(ceg, d, u).Success?
    ensures SucceedsWithout(ceg, u, n)
    decreases ceg.nodeMap[n].layer
  {
    var a := ceg.nodeMap[n].activation;
    assert LooksBack(ceg, n) && Fires(ceg, d, n);
    forall c | c in a.Candidates() && Meaning(ceg, d, c).Success?
      ensures SucceedsWithout(ceg, u, c)
    {
      SuccessWithout(ceg, d, u, c);
    }
  }

  /** When only `u` fails, exactly the nodes that can succeed without it do. */
  lemma {:induction false} OnlyFailureTells(ceg: Ceg, u: Id, n: Id)
    requires Backward(ceg) && n in ceg.nodeMap
    ensures Meaning(ceg, OnlyFails(u), n).Success? <==> SucceedsWithout(ceg, u, n)
    decreases ceg.nodeMap[n].layer
  {
    var a := ceg.nodeMap[n].activation;
    assert LooksBack(ceg, n);
    forall c | c in a.Candidates()
      ensures Meaning(ceg, OnlyFails(u), c).Success? <==> SucceedsWithout(ceg, u, c)
    {
      OnlyFailureTells(ceg, u, c);
    }
  }

  /** The answers with which a fragile edge is not respected. */
  lemma FragileFails(ceg: Ceg, i: nat)
    requires Backward(ceg) && i < |ceg.edges| && JoinsNodes(ceg, ceg.edges[i])
    requires SucceedsWithout(ceg, ceg.edges[i].from, ceg.edges[i].to)
    ensures Cooperative(OnlyFails(ceg.edges[i].from)) && !DependenciesSucceed(ceg, OnlyFails(ceg.edges[i].from))
  {
    OnlyFailureTells(ceg, ceg.edges[i].from, ceg.edges[i].to);
    OnlyFailureTells(ceg, ceg.edges[i].from, ceg.edges[i].from);
  }

  /** Dependency edges are respected for every cooperative dispatch exactly when no edge leads to
      a node that can succeed, by the rules, without the edge's source. */
  lemma RespectedIff(ceg: Ceg)
    requires Backward(ceg)
    ensures (forall d :: Cooperative(d) ==> DependenciesSucceed(ceg, d)) <==> Robust(ceg)
  {
    if Robust(ceg) {
      forall d
        ensures DependenciesSucceed(ceg, d)
      {
        RobustRespects(ceg, d);
      }
    } else {
      var i :| 0 <= i < |ceg.edges| && JoinsNodes(ceg, ceg.edges[i])
               && SucceedsWithout(ceg, ceg.edges[i].from, ceg.edges[i].to);
      FragileFails(ceg, i);
    }
  }

  lemma RobustRespects(ceg: Ceg, d: Dispatch)
    requires Backward(ceg) && Robust(ceg)
    ensures DependenciesSucceed(ceg, d)
  {
    forall i | 0 <= i < |ceg.edges| && JoinsNodes(ceg, ceg.edges[i]) && Meaning(ceg, d, ceg.edges[i].to).Success?
      ensures Meaning(ceg, d, ceg.edges[i].from).Success?
    {
      if !Meaning(ceg, d, ceg.edges[i].from).Success? {
        SuccessWithout(ceg, d, ceg.edges[i].from, ceg.edges[i].to);
      }
    }
  }

  /** An `all_success` node that requires the edge's source cannot succeed without it. */
  lemma RequiredIsRobust(ceg: Ceg)
    requires Backward(ceg)
    requires forall i :: 0 <= i < |ceg.edges| && JoinsNodes(ceg, ceg.edges[i]) ==>
               && ceg.nodeMap[ceg.edges[i].to].activation.condition.AllSuccess?
               && ceg.edges[i].from in ceg.nodeMap[ceg.edges[i].to].activation.required
    ensures Robust(ceg)
  {
    forall i | 0 <= i < |ceg.edges| && JoinsNodes(ceg, ceg.edges[i])
      ensures !SucceedsWithout(ceg, ceg.edges[i].from, ceg.edges[i].to)
    {
      assert LooksBack(ceg, ceg.edges[i].to);
    }
  }

  /** The condition is one on the plan: two graphs with the same rules give the same answer. */
  lemma {:induction false} SuccessIsBuildIndependent(a: Ceg, b: Ceg, u: Id, n: Id)
    requires Backward(a) && Backward(b) && a.nodeMap.Keys == b.nodeMap.Keys && n in a.nodeMap
    requires forall m :: m in a.nodeMap ==> a.nodeMap[m].activation == b.nodeMap[m].activation
    ensures SucceedsWithout(a, u, n) == SucceedsWithout(b, u, n)
    decreases a.nodeMap[n].layer
  {
    assert LooksBack(a, n) && LooksBack(b, n);
    forall c | c in a.nodeMap[n].activation.Candidates()
      ensures SucceedsWithout(a, u, c) == SucceedsWithout(b, u, c)
    {
      SuccessIsBuildIndependent(a, b, u, c);
    }
    SameCandidatesSameSuccess(a, b, u, n);
  }

  lemma SameCandidatesSameSuccess(a: Ceg, b: Ceg, u: Id, n: Id)
    requires Backward(a) && Backward(b) && n in a.nodeMap && n in b.nodeMap
    requires a.nodeMap[n].activation == b.nodeMap[n].activation
    requires forall c :: c in a.nodeMap[n].activation.Candidates() ==>
               c in a.nodeMap && c in b.nodeMap && SucceedsWithout(a, u, c) == SucceedsWithout(b, u, c)
    ensures SucceedsWithout(a, u, n) == SucceedsWithout(b, u, n)
  {
  }

  lemma SameRobustness(a: Ceg, b: Ceg)
    requires Backward(a) && Backward(b) && a.nodeMap.Keys == b.nodeMap.Keys && a.edges == b.edges
    requires forall m :: m in a.nodeMap ==> a.nodeMap[m].activation == b.nodeMap[m].activation
    ensures Robust(a) == Robust(b)
  {
    forall i | 0 <= i < |a.edges| && JoinsNodes(a, a.edges[i])
      ensures SucceedsWithout(a, a.edges[i].from, a.edges[i].to) == SucceedsWithout(b, a.edges[i].from, a.edges[i].to)
    {
      SuccessIsBuildIndependent(a, b, a.edges[i].from, a.edges[i].to);
    }
  }
}
