/** Calm runs: what a run comes to when nothing is cut short. Its end and its statuses are told by
    recursion over the graph, without following the course wave by wave. */
module CalmRuns {
  import opened Ids
  import opened Plans
  import opened Wiring
  import opened Statuses
  import opened Activating
  import opened Runs
  import opened Courses

  /** Nothing outside `ids` has changed, except that blocked nodes may have been settled. */
  ghost predicate Moved(before: map<Id, Status>, after: map<Id, Status>, ids: seq<Id>) {
    && after.Keys == before.Keys
    && (forall n :: n in before && n !in ids ==>
          if before[n].Blocked? then Unclaimed(after[n]) else after[n] == before[n])
  }

  /** Every node is in the layer recorded for it, and only roots are in the first. */
  ghost predicate Layered(ceg: Ceg) {
    && (forall n :: n in ceg.nodeMap ==> ceg.nodeMap[n].layer < |ceg.layers| && n in ceg.layers[ceg.nodeMap[n].layer])
    && (forall l, n :: 0 <= l < |ceg.layers| && n in ceg.layers[l] ==>
          n in ceg.nodeMap && ceg.nodeMap[n].layer == l && (l == 0 ==> n in ceg.inDegree && ceg.inDegree[n] == 0))
  }

  /** The waves of each layer hold exactly the layer's nodes, each in one wave. */
  ghost predicate Covers(ceg: Ceg, waves: seq<seq<seq<Id>>>) {
    && |waves| == |ceg.layers|
    && (forall l, n :: 0 <= l < |waves| ==> (n in ceg.layers[l] <==> InSomeWave(waves[l], n)))
    && (forall l :: 0 <= l < |waves| ==> Separate(waves[l]))
  }

  ghost predicate Separate(waves: seq<seq<Id>>) {
    forall v, w, n :: 0 <= v < |waves| && 0 <= w < |waves| && n in waves[v] && n in waves[w] ==> v == w
  }

  ghost predicate InSomeWave(waves: seq<seq<Id>>, n: Id) {
    exists w :: 0 <= w < |waves| && n in waves[w]
  }

  /** There are no deadlines and no cancellations. */
  ghost predicate Untimed(env: Surroundings) {
    (forall n :: env.timeLeft(n) <= 0) && (forall l, w :: !env.cancelled(l, w))
  }

  /** Every node becomes terminal by itself, or nothing would end the wait for one that does not. */
  ghost predicate Undisturbed(ceg: Ceg, d: Dispatch, env: Surroundings)
    requires Backward(ceg)
  {
    (forall n :: n in ceg.nodeMap ==> IsTerminal(Meaning(ceg, d, n))) || Untimed(env)
  }

  /** All a run needs in order to be calm. */
  ghost predicate Benign(ceg: Ceg, d: Dispatch, waves: seq<seq<seq<Id>>>, env: Surroundings) {
    Backward(ceg) && Layered(ceg) && Covers(ceg, waves) && Undisturbed(ceg, d, env)
  }

  // ----- Steps keep to the meaning -----

  lemma OneAgrees(ceg: Ceg, d: Dispatch, states: map<Id, Status>, id: Id, s: Status)
    requires Backward(ceg) && AllAgree(ceg, d, states) && Agrees(ceg, d, id, s)
    ensures AllAgree(ceg, d, states[id := s])
  {
  }

  lemma DecideAgrees(ceg: Ceg, d: Dispatch, states: map<Id, Status>, id: Id)
    requires Backward(ceg) && AllAgree(ceg, d, states) && id in states && states[id].Blocked?
    ensures AllAgree(ceg, d, Decide(ceg, states, id))
  {
    assert Agrees(ceg, d, id, states[id]);
    if EvaluateActivation(ceg.nodeMap[id].activation, states) {
      DueFires(ceg, d, states, id);
      OneAgrees(ceg, d, states, id, Ready);
    } else if ShouldSkip(ceg.nodeMap[id].activation, states) {
      SkippedGivesUp(ceg, d, states, id);
      OneAgrees(ceg, d, states, id, Skipped);
    }
  }

  lemma {:induction false} SettleAgrees(ceg: Ceg, d: Dispatch, before: map<Id, Status>, blocked: seq<Id>, i: nat)
    requires Backward(ceg) && AllAgree(ceg, d, before) && AreBlocked(before, blocked) && i <= |blocked|
    ensures AllAgree(ceg, d, Settle(ceg, before, blocked[..i]))
  {
    if i > 0 {
      SettleAgrees(ceg, d, before, blocked, i - 1);
      NextToSettle(ceg, before, blocked, i - 1);
      DecideAgrees(ceg, d, Settle(ceg, before, blocked[..i - 1]), blocked[i - 1]);
    }
  }

  lemma RefreshAgrees(ceg: Ceg, d: Dispatch, before: map<Id, Status>)
    requires Backward(ceg) && AllAgree(ceg, d, before)
    ensures AllAgree(ceg, d, Refreshed(ceg, before))
  {
    var blocked := OneListing(before);
    SettleAgrees(ceg, d, before, blocked, |blocked|);
    assert blocked[..|blocked|] == blocked;
  }

  lemma DoneAgrees(ceg: Ceg, d: Dispatch, before: map<Id, Status>, wave: seq<Id>)
    requires Backward(ceg) && AllAgree(ceg, d, before)
    ensures AllAgree(ceg, d, WaveDone(d, before, wave))
  {
    forall n | n in before
      ensures Agrees(ceg, d, n, WaveDone(d, before, wave)[n])
    {
      assert Agrees(ceg, d, n, before[n]);
    }
  }

  lemma FirstAgree(ceg: Ceg, d: Dispatch)
    requires Backward(ceg)
    ensures AllAgree(ceg, d, FirstStates(ceg))
  {
    forall n | n in ceg.nodeMap
      ensures Agrees(ceg, d, n, FirstStates(ceg)[n])
    {
      if ceg.inDegree[n] == 0 {
        RootsAgree(ceg, d, map[], n);
      }
    }
  }

  // ----- Progress of a calm run through the layers -----

  /** The node has come to what it means. */
  ghost predicate At(ceg: Ceg, d: Dispatch, states: map<Id, Status>, n: Id)
    requires Backward(ceg)
  {
    n in states && n in ceg.nodeMap && states[n] == Meaning(ceg, d, n)
  }

  /** The node is ready if it is to be dispatched, and has come to what it means otherwise. */
  ghost predicate Poised(ceg: Ceg, d: Dispatch, states: map<Id, Status>, n: Id)
    requires Backward(ceg)
  {
    && n in states && n in ceg.nodeMap
    && states[n] == if Fires(ceg, d, n) then Ready else Meaning(ceg, d, n)
  }

  ghost predicate AllAt(ceg: Ceg, d: Dispatch, states: map<Id, Status>, ids: seq<Id>)
    requires Backward(ceg)
  {
    forall n :: n in ids ==> At(ceg, d, states, n)
  }

  ghost predicate AllPoised(ceg: Ceg, d: Dispatch, states: map<Id, Status>, ids: seq<Id>)
    requires Backward(ceg)
  {
    forall n :: n in ids ==> Poised(ceg, d, states, n)
  }

  ghost predicate AllUnclaimed(states: map<Id, Status>, ids: seq<Id>) {
    forall n :: n in ids ==> n in states && Unclaimed(states[n])
  }

  /** What is not touched keeps its place: a node that means BLOCKED is never settled. */
  lemma MovedKeeps(ceg: Ceg, d: Dispatch, before: map<Id, Status>, after: map<Id, Status>, ids: seq<Id>, n: Id)
    requires Backward(ceg) && AllAgree(ceg, d, after) && Moved(before, after, ids) && n !in ids
    ensures At(ceg, d, before, n) ==> At(ceg, d, after, n)
    ensures Poised(ceg, d, before, n) ==> Poised(ceg, d, after, n)
    ensures n in before && Unclaimed(before[n]) ==> n in after && Unclaimed(after[n])
  {
    if n in after {
      assert Agrees(ceg, d, n, after[n]);
    }
  }

  lemma MovedKeepsAll(ceg: Ceg, d: Dispatch, before: map<Id, Status>, after: map<Id, Status>, ids: seq<Id>,
                      kept: seq<Id>)
    requires Backward(ceg) && AllAgree(ceg, d, after) && Moved(before, after, ids)
    requires forall n :: n in kept ==> n !in ids
    ensures AllAt(ceg, d, before, kept) ==> AllAt(ceg, d, after, kept)
    ensures AllPoised(ceg, d, before, kept) ==> AllPoised(ceg, d, after, kept)
    ensures AllUnclaimed(before, kept) ==> AllUnclaimed(after, kept)
  {
    forall n | n in kept
      ensures At(ceg, d, before, n) ==> At(ceg, d, after, n)
      ensures Poised(ceg, d, before, n) ==> Poised(ceg, d, after, n)
      ensures n in before && Unclaimed(before[n]) ==> n in after && Unclaimed(after[n])
    {
      MovedKeeps(ceg, d, before, after, ids, n);
    }
  }

  lemma MovesJoin(a: map<Id, Status>, b: map<Id, Status>, c: map<Id, Status>, x: seq<Id>, y: seq<Id>, all: seq<Id>)
    requires Moved(a, b, x) && Moved(b, c, y)
    requires forall n :: n in x || n in y ==> n in all
    ensures Moved(a, c, all)
  {
  }

  // ----- One wave of a calm run -----

  /** The wave dispatches something and holds something that never becomes terminal. */
  ghost predicate WaveJams(ceg: Ceg, d: Dispatch, wave: seq<Id>)
    requires Backward(ceg)
  {
    && (exists n :: n in wave && n in ceg.nodeMap && Fires(ceg, d, n))
    && (exists n :: n in wave && n in ceg.nodeMap && !IsTerminal(Meaning(ceg, d, n)))
  }

  /** The wave dispatches something whose answer escalates. */
  ghost predicate WaveEscalates(ceg: Ceg, d: Dispatch, wave: seq<Id>)
    requires Backward(ceg)
  {
    exists n :: n in wave && n in ceg.nodeMap && Fires(ceg, d, n) && Escalates(d(n))
  }

  /** The run does not get past the wave. */
  ghost predicate WaveStops(ceg: Ceg, d: Dispatch, wave: seq<Id>)
    requires Backward(ceg)
  {
    WaveJams(ceg, d, wave) || WaveEscalates(ceg, d, wave)
  }

  /** In a poised wave exactly the nodes that fire are ready. */
  lemma PoisedFires(ceg: Ceg, d: Dispatch, states: map<Id, Status>, wave: seq<Id>)
    requires Backward(ceg) && AllPoised(ceg, d, states, wave)
    ensures forall n :: n in wave ==> n in ceg.nodeMap && (ReadyIn(states, n) <==> Fires(ceg, d, n))
  {
    forall n | n in wave
      ensures n in ceg.nodeMap && (ReadyIn(states, n) <==> Fires(ceg, d, n))
    {
      assert Poised(ceg, d, states, n);
    }
  }

  lemma PoisedEscalates(ceg: Ceg, d: Dispatch, states: map<Id, Status>, wave: seq<Id>)
    requires Backward(ceg) && AllPoised(ceg, d, states, wave)
    ensures SomeEscalates(d, states, wave) <==> WaveEscalates(ceg, d, wave)
  {
    PoisedFires(ceg, d, states, wave);
  }

  /** A wave in which nothing fires is already where it belongs. */
  lemma IdleWaveIsAt(ceg: Ceg, d: Dispatch, states: map<Id, Status>, wave: seq<Id>)
    requires Backward(ceg) && AllPoised(ceg, d, states, wave)
    requires !SomeReady(states, wave)
    ensures AllAt(ceg, d, states, wave) && !WaveStops(ceg, d, wave)
  {
    PoisedFires(ceg, d, states, wave);
    forall n | n in wave
      ensures At(ceg, d, states, n)
    {
      assert Poised(ceg, d, states, n) && !ReadyIn(states, n);
    }
  }

  /** Once the answers are in, the nodes of a poised wave have come to what they mean. */
  lemma AnsweredIsAt(ceg: Ceg, d: Dispatch, before: map<Id, Status>, wave: seq<Id>)
    requires Backward(ceg) && AllPoised(ceg, d, before, wave)
    ensures AllAt(ceg, d, WaveDone(d, before, wave), wave)
  {
    forall n | n in wave
      ensures At(ceg, d, WaveDone(d, before, wave), n)
    {
      assert Poised(ceg, d, before, n);
    }
  }

  /** A wave that has come to what it means is done unless it holds a node that never ends. */
  lemma AtIsDone(ceg: Ceg, d: Dispatch, states: map<Id, Status>, wave: seq<Id>)
    requires Backward(ceg) && AllAt(ceg, d, states, wave)
    ensures AllDone(states, wave) <==> forall n :: n in wave && n in ceg.nodeMap ==> IsTerminal(Meaning(ceg, d, n))
  {
    forall n | n in wave
      ensures TerminalIn(states, n) <==> n in ceg.nodeMap && IsTerminal(Meaning(ceg, d, n))
    {
      assert At(ceg, d, states, n);
    }
  }

  /** A poised wave lingers exactly when it jams and no answer escalates; and then nothing limits it. */
  lemma PoisedLingers(ceg: Ceg, d: Dispatch, env: Surroundings, before: map<Id, Status>, wave: seq<Id>)
    requires Backward(ceg) && AllPoised(ceg, d, before, wave) && Undisturbed(ceg, d, env)
    ensures Lingers(d, before, wave) <==> WaveJams(ceg, d, wave) && !WaveEscalates(ceg, d, wave)
    ensures Lingers(d, before, wave) ==> Untimed(env)
  {
    PoisedFires(ceg, d, before, wave);
    PoisedEscalates(ceg, d, before, wave);
    AnsweredIsAt(ceg, d, before, wave);
    AtIsDone(ceg, d, WaveDone(d, before, wave), wave);
  }

  /** A calm run stops at a poised wave exactly when the wave stops runs, and it forces nothing. */
  lemma PoisedHalts(ceg: Ceg, d: Dispatch, env: Surroundings, before: map<Id, Status>, wave: seq<Id>, layer: nat,
                    w: nat)
    requires Backward(ceg) && AllPoised(ceg, d, before, wave) && Undisturbed(ceg, d, env)
    ensures Halts(ceg, d, env, before, wave, layer, w) <==> WaveStops(ceg, d, wave)
    ensures !Forces(ceg, d, env, before, wave, layer, w)
  {
    PoisedLingers(ceg, d, env, before, wave);
    PoisedEscalates(ceg, d, before, wave);
  }

  lemma ClosedIsDone(states: map<Id, Status>, wave: seq<Id>)
    requires AllDone(states, wave)
    ensures Closed(states, wave) == states
  {
    assert forall n :: n in states && n in wave ==> TerminalIn(states, n);
  }

  /** A poised wave that does not stop the run comes to what it means. */
  lemma PoisedPasses(ceg: Ceg, d: Dispatch, env: Surroundings, before: map<Id, Status>, wave: seq<Id>)
    requires Backward(ceg) && AllAgree(ceg, d, before) && AllPoised(ceg, d, before, wave) && Undisturbed(ceg, d, env)
    requires !WaveStops(ceg, d, wave)
    ensures var after := NextStates(ceg, d, before, wave);
            AllAt(ceg, d, after, wave) && Moved(before, after, wave) && AllAgree(ceg, d, after)
  {
    PoisedLingers(ceg, d, env, before, wave);
    PoisedEscalates(ceg, d, before, wave);
    if SomeReady(before, wave) {
      AnsweredIsAt(ceg, d, before, wave);
      DoneAgrees(ceg, d, before, wave);
      ClosedIsDone(WaveDone(d, before, wave), wave);
    } else {
      RefreshedIsRecomputed(ceg, before);
      IdleWaveIsAt(ceg, d, before, wave);
      RefreshAgrees(ceg, d, before);
      RecomputeMoves(ceg, before, Refreshed(ceg, before));
      MovedKeepsAll(ceg, d, before, Refreshed(ceg, before), [], wave);
      MovesJoin(before, before, Refreshed(ceg, before), [], [], wave);
    }
  }

  lemma RecomputeMoves(ceg: Ceg, before: map<Id, Status>, after: map<Id, Status>)
    requires Recomputed(ceg, before, after)
    ensures Moved(before, after, [])
  {
  }

  // ----- The waves of a layer -----

  lemma WaveMoves(ceg: Ceg, waves: seq<seq<seq<Id>>>, start: map<Id, Status>, before: map<Id, Status>,
                  after: map<Id, Status>, layer: nat, w: nat)
    requires Covers(ceg, waves) && layer < |waves| && w < |waves[layer]|
    requires Moved(start, before, ceg.layers[layer]) && Moved(before, after, waves[layer][w])
    ensures Moved(start, after, ceg.layers[layer])
  {
    WaveInLayer(ceg, waves, layer, w);
    MovesJoin(start, before, after, ceg.layers[layer], waves[layer][w], ceg.layers[layer]);
  }

  lemma WaveInLayer(ceg: Ceg, waves: seq<seq<seq<Id>>>, layer: nat, w: nat)
    requires Covers(ceg, waves) && layer < |waves| && w < |waves[layer]|
    ensures forall n :: n in waves[layer][w] ==> n in ceg.layers[layer]
  {
    forall n | n in waves[layer][w]
      ensures n in ceg.layers[layer]
    {
      assert InSomeWave(waves[layer], n);
    }
  }

  /** The first `count` waves of a layer are passed; the others are poised. */
  ghost predicate PassedTo(ceg: Ceg, d: Dispatch, states: map<Id, Status>, waves: seq<seq<Id>>, count: nat)
    requires Backward(ceg)
  {
    forall w {:trigger PassedAt(ceg, d, states, waves, count, w)} :: 0 <= w < |waves| ==>
      PassedAt(ceg, d, states, waves, count, w)
  }

  ghost predicate PassedAt(ceg: Ceg, d: Dispatch, states: map<Id, Status>, waves: seq<seq<Id>>, count: nat, w: nat)
    requires Backward(ceg) && w < |waves|
  {
    if w < count then AllAt(ceg, d, states, waves[w]) else AllPoised(ceg, d, states, waves[w])
  }

  lemma WavePassed(ceg: Ceg, d: Dispatch, before: map<Id, Status>, after: map<Id, Status>, waves: seq<seq<Id>>, w: nat)
    requires Backward(ceg) && AllAgree(ceg, d, after) && Separate(waves) && w < |waves|
    requires PassedTo(ceg, d, before, waves, w)
    requires AllAt(ceg, d, after, waves[w]) && Moved(before, after, waves[w])
    ensures PassedTo(ceg, d, after, waves, w + 1)
  {
    var next := w + 1;
    forall v | 0 <= v < |waves|
      ensures PassedAt(ceg, d, after, waves, next, v)
    {
      if v != w {
        assert PassedAt(ceg, d, before, waves, w, v);
        MovedKeepsAll(ceg, d, before, after, waves[w], waves[v]);
      }
    }
  }

  /** Some wave of the layer jams. */
  ghost predicate LayerJams(ceg: Ceg, d: Dispatch, waves: seq<seq<Id>>)
    requires Backward(ceg)
  {
    exists w :: 0 <= w < |waves| && WaveJams(ceg, d, waves[w])
  }

  /** Some wave of the plan jams. */
  ghost predicate Jams(ceg: Ceg, d: Dispatch, waves: seq<seq<seq<Id>>>)
    requires Backward(ceg)
  {
    exists l :: 0 <= l < |waves| && LayerJams(ceg, d, waves[l])
  }

  ghost predicate LayerStops(ceg: Ceg, d: Dispatch, waves: seq<seq<Id>>)
    requires Backward(ceg)
  {
    exists w :: 0 <= w < |waves| && WaveStops(ceg, d, waves[w])
  }

  /** None of the first `count` waves stops the run. */
  ghost predicate NoneStops(ceg: Ceg, d: Dispatch, waves: seq<seq<Id>>, count: nat)
    requires Backward(ceg)
  {
    forall v :: 0 <= v < count && v < |waves| ==> !WaveStops(ceg, d, waves[v])
  }

  /** The wave stops the run and none before it does. */
  ghost predicate StopsFirst(ceg: Ceg, d: Dispatch, waves: seq<seq<seq<Id>>>, layer: nat, w: nat)
    requires Backward(ceg)
  {
    && layer < |waves| && w < |waves[layer]| && WaveStops(ceg, d, waves[layer][w])
    && ClearTo(ceg, d, waves, layer)
    && NoneStops(ceg, d, waves[layer], w)
  }

  /** The first wave that stops the run jams. */
  ghost predicate JamsFirst(ceg: Ceg, d: Dispatch, waves: seq<seq<seq<Id>>>, layer: nat, w: nat)
    requires Backward(ceg)
  {
    StopsFirst(ceg, d, waves, layer, w) && !WaveEscalates(ceg, d, waves[layer][w])
  }

  /** The first wave that stops the run escalates. */
  ghost predicate EscalatesFirst(ceg: Ceg, d: Dispatch, waves: seq<seq<seq<Id>>>, layer: nat, w: nat)
    requires Backward(ceg)
  {
    StopsFirst(ceg, d, waves, layer, w) && WaveEscalates(ceg, d, waves[layer][w])
  }

  ghost predicate RunJams(ceg: Ceg, d: Dispatch, waves: seq<seq<seq<Id>>>)
    requires Backward(ceg)
  {
    exists l, w :: JamsFirst(ceg, d, waves, l, w)
  }

  ghost predicate RunEscalates(ceg: Ceg, d: Dispatch, waves: seq<seq<seq<Id>>>)
    requires Backward(ceg)
  {
    exists l, w :: EscalatesFirst(ceg, d, waves, l, w)
  }

  /** No wave of the first `layer` layers stops the run. */
  ghost predicate ClearTo(ceg: Ceg, d: Dispatch, waves: seq<seq<seq<Id>>>, layer: nat)
    requires Backward(ceg)
  {
    forall l :: 0 <= l < layer && l < |waves| ==> !LayerStops(ceg, d, waves[l])
  }

  lemma NextIsClear(ceg: Ceg, d: Dispatch, waves: seq<seq<seq<Id>>>, layer: nat)
    requires Backward(ceg) && ClearTo(ceg, d, waves, layer) && layer < |waves| && !LayerStops(ceg, d, waves[layer])
    ensures ClearTo(ceg, d, waves, layer + 1)
  {
  }

  lemma FirstIsUnique(ceg: Ceg, d: Dispatch, waves: seq<seq<seq<Id>>>, l: nat, w: nat, m: nat, v: nat)
    requires Backward(ceg) && StopsFirst(ceg, d, waves, l, w) && StopsFirst(ceg, d, waves, m, v)
    ensures l == m && w == v
  {
    assert LayerStops(ceg, d, waves[l]) && LayerStops(ceg, d, waves[m]);
  }

  /** The first wave that stops a run decides how it ends. */
  lemma FirstDecides(ceg: Ceg, d: Dispatch, waves: seq<seq<seq<Id>>>, l: nat, w: nat)
    requires Backward(ceg) && StopsFirst(ceg, d, waves, l, w)
    ensures RunEscalates(ceg, d, waves) <==> EscalatesFirst(ceg, d, waves, l, w)
    ensures RunJams(ceg, d, waves) <==> JamsFirst(ceg, d, waves, l, w)
    ensures JamsFirst(ceg, d, waves, l, w) ==> Jams(ceg, d, waves)
  {
    forall m, v | StopsFirst(ceg, d, waves, m, v)
      ensures m == l && v == w
    {
      FirstIsUnique(ceg, d, waves, l, w, m, v);
    }
    if JamsFirst(ceg, d, waves, l, w) {
      assert LayerJams(ceg, d, waves[l]);
    }
  }

  lemma AllClear(ceg: Ceg, d: Dispatch, waves: seq<seq<seq<Id>>>)
    requires Backward(ceg) && ClearTo(ceg, d, waves, |waves|)
    ensures !Jams(ceg, d, waves) && !RunJams(ceg, d, waves) && !RunEscalates(ceg, d, waves)
  {
    forall l | 0 <= l < |waves|
      ensures !LayerJams(ceg, d, waves[l])
    {
      assert !LayerStops(ceg, d, waves[l]);
    }
    forall l: nat, w: nat
      ensures !StopsFirst(ceg, d, waves, l, w)
    {
      if l < |waves| {
        assert !LayerStops(ceg, d, waves[l]);
      }
    }
  }

  // ----- The layers -----

  /** All earlier layers are passed, the current one is poised, and nothing later was claimed. */
  ghost predicate Progress(ceg: Ceg, d: Dispatch, states: map<Id, Status>, layer: nat)
    requires Backward(ceg)
  {
    && (forall l :: 0 <= l < layer && l < |ceg.layers| ==> AllAt(ceg, d, states, ceg.layers[l]))
    && (layer < |ceg.layers| ==> AllPoised(ceg, d, states, ceg.layers[layer]))
    && (forall l :: layer < l < |ceg.layers| ==> AllUnclaimed(states, ceg.layers[l]))
  }

  lemma FirstLayerPoised(ceg: Ceg, d: Dispatch)
    requires Backward(ceg) && Layered(ceg)
    ensures Progress(ceg, d, FirstStates(ceg), 0)
  {
    var states := FirstStates(ceg);
    FirstAgree(ceg, d);
    forall n | n in states
      ensures ceg.inDegree[n] == 0 ==> Poised(ceg, d, states, n)
      ensures Unclaimed(states[n])
    {
      assert Agrees(ceg, d, n, states[n]);
    }
  }

  lemma PoisedLayer(ceg: Ceg, d: Dispatch, waves: seq<seq<seq<Id>>>, states: map<Id, Status>, layer: nat)
    requires Backward(ceg) && Covers(ceg, waves) && layer < |waves| && Progress(ceg, d, states, layer)
    ensures PassedTo(ceg, d, states, waves[layer], 0)
  {
    forall w, n | 0 <= w < |waves[layer]| && n in waves[layer][w]
      ensures Poised(ceg, d, states, n)
    {
      assert InSomeWave(waves[layer], n);
    }
  }

  /** Running a layer passes it, keeps the earlier ones and claims nothing of the later ones. */
  lemma LayerPassed(ceg: Ceg, d: Dispatch, waves: seq<seq<seq<Id>>>, before: map<Id, Status>, after: map<Id, Status>,
                    layer: nat)
    requires Backward(ceg) && Layered(ceg) && Covers(ceg, waves) && layer < |waves| && AllAgree(ceg, d, after)
    requires Progress(ceg, d, before, layer) && Moved(before, after, ceg.layers[layer])
    requires PassedTo(ceg, d, after, waves[layer], |waves[layer]|)
    ensures forall l :: 0 <= l <= layer ==> AllAt(ceg, d, after, ceg.layers[l])
    ensures forall l :: layer < l < |ceg.layers| ==> AllUnclaimed(after, ceg.layers[l])
  {
    forall l | 0 <= l < |ceg.layers| && l != layer
      ensures AllAt(ceg, d, before, ceg.layers[l]) ==> AllAt(ceg, d, after, ceg.layers[l])
      ensures AllUnclaimed(before, ceg.layers[l]) ==> AllUnclaimed(after, ceg.layers[l])
    {
      MovedKeepsAll(ceg, d, before, after, ceg.layers[layer], ceg.layers[l]);
    }
    forall n | n in ceg.layers[layer]
      ensures At(ceg, d, after, n)
    {
      var w :| 0 <= w < |waves[layer]| && n in waves[layer][w];
      assert PassedAt(ceg, d, after, waves[layer], |waves[layer]|, w);
    }
  }

  /** With all earlier layers passed, recomputing poises the next one. */
  lemma NextLayerPoised(ceg: Ceg, d: Dispatch, before: map<Id, Status>, after: map<Id, Status>, layer: nat)
    requires Backward(ceg) && Layered(ceg) && before.Keys == ceg.nodeMap.Keys && layer <= |ceg.layers|
    requires AllAgree(ceg, d, after)
    requires forall l :: 0 <= l < layer ==> AllAt(ceg, d, before, ceg.layers[l])
    requires forall l :: layer <= l < |ceg.layers| ==> AllUnclaimed(before, ceg.layers[l])
    requires Recomputed(ceg, before, after)
    ensures Progress(ceg, d, after, layer)
  {
    RecomputeMoves(ceg, before, after);
    RecomputeKeepsLayers(ceg, d, before, after, layer);
    if layer < |ceg.layers| {
      forall n | n in ceg.layers[layer]
        ensures Poised(ceg, d, after, n)
      {
        RecomputePoises(ceg, d, before, after, layer, n);
      }
    }
  }

  lemma RecomputeKeepsLayers(ceg: Ceg, d: Dispatch, before: map<Id, Status>, after: map<Id, Status>, layer: nat)
    requires Backward(ceg) && AllAgree(ceg, d, after) && Moved(before, after, []) && layer <= |ceg.layers|
    requires forall l :: 0 <= l < layer ==> AllAt(ceg, d, before, ceg.layers[l])
    requires forall l :: layer <= l < |ceg.layers| ==> AllUnclaimed(before, ceg.layers[l])
    ensures forall l :: 0 <= l < layer ==> AllAt(ceg, d, after, ceg.layers[l])
    ensures forall l :: layer <= l < |ceg.layers| ==> AllUnclaimed(after, ceg.layers[l])
  {
    forall l | 0 <= l < |ceg.layers|
      ensures AllAt(ceg, d, before, ceg.layers[l]) ==> AllAt(ceg, d, after, ceg.layers[l])
      ensures AllUnclaimed(before, ceg.layers[l]) ==> AllUnclaimed(after, ceg.layers[l])
    {
      MovedKeepsAll(ceg, d, before, after, [], ceg.layers[l]);
    }
  }

  lemma RecomputePoises(ceg: Ceg, d: Dispatch, before: map<Id, Status>, after: map<Id, Status>, layer: nat, n: Id)
    requires Backward(ceg) && Layered(ceg) && layer < |ceg.layers| && n in ceg.layers[layer]
    requires AllAgree(ceg, d, after) && Recomputed(ceg, before, after) && n in after && Unclaimed(after[n])
    requires forall l :: 0 <= l < layer ==> AllAt(ceg, d, before, ceg.layers[l])
    ensures Poised(ceg, d, after, n)
  {
    if after[n].Blocked? {
      assert Agrees(ceg, d, n, after[n]) && before[n].Blocked?;
      NeverDecided(ceg, d, before, layer, n);
    } else {
      DecidedIsPoised(ceg, d, after, n);
    }
  }

  lemma DecidedIsPoised(ceg: Ceg, d: Dispatch, states: map<Id, Status>, n: Id)
    requires Backward(ceg) && AllAgree(ceg, d, states) && n in states && (states[n].Ready? || states[n].Skipped?)
    ensures Poised(ceg, d, states, n)
  {
    assert Agrees(ceg, d, n, states[n]);
  }

  /** A node that is not due once its candidates have come to what they mean stays blocked. */
  lemma NeverDecided(ceg: Ceg, d: Dispatch, states: map<Id, Status>, layer: nat, n: Id)
    requires Backward(ceg) && Layered(ceg)
    requires layer < |ceg.layers| && n in ceg.layers[layer] && ceg.inDegree[n] != 0
    requires forall l :: 0 <= l < layer ==> AllAt(ceg, d, states, ceg.layers[l])
    requires !Due(ceg.nodeMap[n].activation, states)
    ensures !Fires(ceg, d, n) && Meaning(ceg, d, n) == Blocked
  {
    var a := ceg.nodeMap[n].activation;
    assert LooksBack(ceg, n);
    forall c | c in a.Candidates()
      ensures At(ceg, d, states, c)
    {
      assert c in ceg.layers[ceg.nodeMap[c].layer];
      assert AllAt(ceg, d, states, ceg.layers[ceg.nodeMap[c].layer]);
    }
    UndecidedStays(ceg, d, states, n);
  }

  lemma UndecidedStays(ceg: Ceg, d: Dispatch, states: map<Id, Status>, n: Id)
    requires Backward(ceg) && n in ceg.nodeMap && ceg.inDegree[n] != 0
    requires forall c :: c in ceg.nodeMap[n].activation.Candidates() ==> At(ceg, d, states, c)
    requires !Due(ceg.nodeMap[n].activation, states)
    ensures !Fires(ceg, d, n) && Meaning(ceg, d, n) == Blocked
  {
    var a := ceg.nodeMap[n].activation;
    if Fires(ceg, d, n) {
      FiringIsDue(ceg, d, states, n);
      assert false;
    }
    if GivesUp(ceg, d, n) {
      GivingUpIsDue(ceg, d, states, n);
      assert false;
    }
  }

  lemma FiringIsDue(ceg: Ceg, d: Dispatch, states: map<Id, Status>, n: Id)
    requires Backward(ceg) && n in ceg.nodeMap && Fires(ceg, d, n)
    requires forall c :: c in ceg.nodeMap[n].activation.Candidates() ==> At(ceg, d, states, c)
    ensures EvaluateActivation(ceg.nodeMap[n].activation, states)
  {
    var a := ceg.nodeMap[n].activation;
    match a.condition {
      case AllSuccess =>
        forall i | 0 <= i < |a.required|
          ensures Succeeded(states, a.required[i])
        {
          assert a.required[i] in a.required && At(ceg, d, states, a.required[i]);
        }
      case AnySuccess =>
        var c :| c in a.Candidates() && Meaning(ceg, d, c).Success?;
        var i :| 0 <= i < |a.Candidates()| && a.Candidates()[i] == c;
        assert Succeeded(states, a.Candidates()[i]);
      case Other(_) =>
    }
  }

  lemma GivingUpIsDue(ceg: Ceg, d: Dispatch, states: map<Id, Status>, n: Id)
    requires Backward(ceg) && n in ceg.nodeMap && GivesUp(ceg, d, n)
    requires forall c :: c in ceg.nodeMap[n].activation.Candidates() ==> At(ceg, d, states, c)
    ensures ShouldSkip(ceg.nodeMap[n].activation, states)
  {
    var a := ceg.nodeMap[n].activation;
    match a.condition {
      case AllSuccess =>
        var c :| c in a.required && c in a.Candidates() && Fails(Meaning(ceg, d, c));
        var i :| 0 <= i < |a.required| && a.required[i] == c;
        assert FailedForGood(states, a.required[i]);
      case AnySuccess =>
        forall i | 0 <= i < |a.Candidates()|
          ensures FailedForGood(states, a.Candidates()[i])
        {
          assert a.Candidates()[i] in a.Candidates() && At(ceg, d, states, a.Candidates()[i]);
        }
      case Other(_) =>
    }
  }

  lemma AllLayersPassed(ceg: Ceg, d: Dispatch, states: map<Id, Status>)
    requires Backward(ceg) && Layered(ceg) && Progress(ceg, d, states, |ceg.layers|)
    ensures forall n :: n in ceg.nodeMap ==> At(ceg, d, states, n)
  {
    forall n | n in ceg.nodeMap
      ensures At(ceg, d, states, n)
    {
      assert AllAt(ceg, d, states, ceg.layers[ceg.nodeMap[n].layer]);
    }
  }

  // ----- The course of a calm run -----

  /** The first waves of the layer are passed, and none of them stops the run. */
  ghost predicate MidLayer(ceg: Ceg, d: Dispatch, waves: seq<seq<seq<Id>>>, start: map<Id, Status>,
                           states: map<Id, Status>, layer: nat, at: nat)
    requires Backward(ceg) && layer < |waves| && layer < |ceg.layers|
  {
    && AllAgree(ceg, d, states)
    && PassedTo(ceg, d, states, waves[layer], at)
    && Moved(start, states, ceg.layers[layer])
  }

  lemma LayerOpens(ceg: Ceg, d: Dispatch, waves: seq<seq<seq<Id>>>, states: map<Id, Status>, layer: nat)
    requires Backward(ceg) && Covers(ceg, waves) && layer < |waves|
    requires AllAgree(ceg, d, states) && Progress(ceg, d, states, layer)
    ensures MidLayer(ceg, d, waves, states, states, layer, 0)
  {
    PoisedLayer(ceg, d, waves, states, layer);
    MovesJoin(states, states, states, [], [], ceg.layers[layer]);
  }

  lemma WaveCloses(ceg: Ceg, d: Dispatch, env: Surroundings, waves: seq<seq<seq<Id>>>, start: map<Id, Status>,
                   before: map<Id, Status>, layer: nat, at: nat)
    requires Benign(ceg, d, waves, env) && layer < |waves| && at < |waves[layer]|
    requires MidLayer(ceg, d, waves, start, before, layer, at)
    ensures AllPoised(ceg, d, before, waves[layer][at])
    ensures !WaveStops(ceg, d, waves[layer][at]) ==>
              MidLayer(ceg, d, waves, start, NextStates(ceg, d, before, waves[layer][at]), layer, at + 1)
  {
    assert PassedAt(ceg, d, before, waves[layer], at, at);
    if !WaveStops(ceg, d, waves[layer][at]) {
      var after := NextStates(ceg, d, before, waves[layer][at]);
      PoisedPasses(ceg, d, env, before, waves[layer][at]);
      WavePassed(ceg, d, before, after, waves[layer], at);
      WaveMoves(ceg, waves, start, before, after, layer, at);
    }
  }

  lemma CalmNext(ceg: Ceg, d: Dispatch, env: Surroundings, waves: seq<seq<seq<Id>>>, start: map<Id, Status>,
                 before: map<Id, Status>, layer: nat, at: nat)
    requires Benign(ceg, d, waves, env) && layer < |waves| && at < |waves[layer]|
    requires MidLayer(ceg, d, waves, start, before, layer, at) && !WaveStops(ceg, d, waves[layer][at])
    ensures MidLayer(ceg, d, waves, start, NextStates(ceg, d, before, waves[layer][at]), layer, at + 1)
    ensures !Halts(ceg, d, env, before, waves[layer][at], layer, at)
  {
    WaveCloses(ceg, d, env, waves, start, before, layer, at);
    PoisedHalts(ceg, d, env, before, waves[layer][at], layer, at);
  }

  /** As long as no wave of the layer stops it, a calm run gets past them as they mean. */
  lemma {:induction false} CalmWaves(ceg: Ceg, d: Dispatch, env: Surroundings, waves: seq<seq<seq<Id>>>,
                                     start: map<Id, Status>, layer: nat, at: nat)
    requires Benign(ceg, d, waves, env) && layer < |waves| && at <= |waves[layer]|
    requires AllAgree(ceg, d, start) && Progress(ceg, d, start, layer) && NoneStops(ceg, d, waves[layer], at)
    ensures MidLayer(ceg, d, waves, start, CourseIn(ceg, d, waves[layer], start, at), layer, at)
    ensures PassesTo(ceg, d, env, waves[layer], start, layer, at)
  {
    if at == 0 {
      LayerOpens(ceg, d, waves, start, layer);
    } else {
      var last := at - 1;
      var before := CourseIn(ceg, d, waves[layer], start, last);
      CalmWaves(ceg, d, env, waves, start, layer, last);
      CalmNext(ceg, d, env, waves, start, before, layer, last);
      assert !HaltsAt(ceg, d, env, waves[layer], start, layer, last);
      PassesOn(ceg, d, env, waves[layer], start, layer, last);
    }
  }

  lemma PassesOn(ceg: Ceg, d: Dispatch, env: Surroundings, waves: seq<seq<Id>>, start: map<Id, Status>, layer: nat,
                 at: nat)
    requires PassesTo(ceg, d, env, waves, start, layer, at) && at < |waves|
    ensures PassesTo(ceg, d, env, waves, start, layer, at + 1) <==> !HaltsAt(ceg, d, env, waves, start, layer, at)
  {
  }

  /** The wave that a calm run has got to is poised. */
  lemma CalmWave(ceg: Ceg, d: Dispatch, env: Surroundings, waves: seq<seq<seq<Id>>>, start: map<Id, Status>,
                 layer: nat, at: nat)
    requires Benign(ceg, d, waves, env) && layer < |waves| && at < |waves[layer]|
    requires AllAgree(ceg, d, start) && Progress(ceg, d, start, layer) && NoneStops(ceg, d, waves[layer], at)
    ensures AllPoised(ceg, d, CourseIn(ceg, d, waves[layer], start, at), waves[layer][at])
    ensures PassesTo(ceg, d, env, waves[layer], start, layer, at)
    ensures HaltsAt(ceg, d, env, waves[layer], start, layer, at) <==> WaveStops(ceg, d, waves[layer][at])
    ensures !Forces(ceg, d, env, CourseIn(ceg, d, waves[layer], start, at), waves[layer][at], layer, at)
  {
    CalmWaves(ceg, d, env, waves, start, layer, at);
    var before := CourseIn(ceg, d, waves[layer], start, at);
    WaveCloses(ceg, d, env, waves, start, before, layer, at);
    PoisedHalts(ceg, d, env, before, waves[layer][at], layer, at);
  }

  /** How far a calm run has got before a layer. */
  ghost predicate OnCourse(ceg: Ceg, d: Dispatch, states: map<Id, Status>, layer: nat)
    requires Backward(ceg)
  {
    AllAgree(ceg, d, states) && Progress(ceg, d, states, layer) && states.Keys == ceg.nodeMap.Keys
  }

  lemma LayerCloses(ceg: Ceg, d: Dispatch, env: Surroundings, waves: seq<seq<seq<Id>>>, start: map<Id, Status>,
                    layer: nat)
    requires Benign(ceg, d, waves, env) && layer < |waves| && OnCourse(ceg, d, start, layer)
    requires !LayerStops(ceg, d, waves[layer])
    ensures OnCourse(ceg, d, AfterLayer(ceg, d, waves[layer], start), layer + 1)
    ensures PassesTo(ceg, d, env, waves[layer], start, layer, |waves[layer]|)
  {
    var done := CourseIn(ceg, d, waves[layer], start, |waves[layer]|);
    CalmWaves(ceg, d, env, waves, start, layer, |waves[layer]|);
    LayerPassed(ceg, d, waves, start, done, layer);
    RefreshedIsRecomputed(ceg, done);
    RefreshAgrees(ceg, d, done);
    NextLayerPoised(ceg, d, done, Refreshed(ceg, done), layer + 1);
  }

  lemma TravelsOn(ceg: Ceg, d: Dispatch, env: Surroundings, waves: seq<seq<seq<Id>>>, first: map<Id, Status>,
                  layer: nat)
    requires Travels(ceg, d, env, waves, first, layer) && layer < |waves|
    requires LayerPasses(ceg, d, env, waves, first, layer)
    ensures Travels(ceg, d, env, waves, first, layer + 1)
  {
  }

  lemma OneMoreLayer(ceg: Ceg, d: Dispatch, env: Surroundings, waves: seq<seq<seq<Id>>>, first: map<Id, Status>,
                     start: map<Id, Status>, layer: nat)
    requires Benign(ceg, d, waves, env) && layer < |waves| && OnCourse(ceg, d, start, layer)
    requires start == Course(ceg, d, waves, first, layer) && Travels(ceg, d, env, waves, first, layer)
    requires !LayerStops(ceg, d, waves[layer])
    ensures OnCourse(ceg, d, AfterLayer(ceg, d, waves[layer], start), layer + 1)
    ensures Travels(ceg, d, env, waves, first, layer + 1)
  {
    LayerCloses(ceg, d, env, waves, start, layer);
    assert LayerPasses(ceg, d, env, waves, first, layer);
    TravelsOn(ceg, d, env, waves, first, layer);
  }

  lemma CourseOpens(ceg: Ceg, d: Dispatch, env: Surroundings, waves: seq<seq<seq<Id>>>)
    requires Benign(ceg, d, waves, env)
    ensures OnCourse(ceg, d, FirstStates(ceg), 0) && Travels(ceg, d, env, waves, FirstStates(ceg), 0)
  {
    FirstAgree(ceg, d);
    FirstLayerPoised(ceg, d);
  }

  lemma ClearBefore(ceg: Ceg, d: Dispatch, waves: seq<seq<seq<Id>>>, last: nat)
    requires Backward(ceg) && last < |waves| && ClearTo(ceg, d, waves, last + 1)
    ensures ClearTo(ceg, d, waves, last) && !LayerStops(ceg, d, waves[last])
  {
  }

  lemma {:induction false} LayersFollow(ceg: Ceg, d: Dispatch, env: Surroundings, waves: seq<seq<seq<Id>>>,
                                        first: map<Id, Status>, layer: nat)
    requires Benign(ceg, d, waves, env) && layer <= |waves| && ClearTo(ceg, d, waves, layer)
    requires OnCourse(ceg, d, first, 0)
    ensures OnCourse(ceg, d, Course(ceg, d, waves, first, layer), layer)
    ensures Travels(ceg, d, env, waves, first, layer)
  {
    if layer > 0 {
      var last := layer - 1;
      ClearBefore(ceg, d, waves, last);
      LayersFollow(ceg, d, env, waves, first, last);
      OneMoreLayer(ceg, d, env, waves, first, Course(ceg, d, waves, first, last), last);
    }
  }

  /** As long as no layer stops it, a calm run gets past them as they mean. */
  lemma CalmLayers(ceg: Ceg, d: Dispatch, env: Surroundings, waves: seq<seq<seq<Id>>>, layer: nat)
    requires Benign(ceg, d, waves, env) && layer <= |waves| && ClearTo(ceg, d, waves, layer)
    ensures OnCourse(ceg, d, Course(ceg, d, waves, FirstStates(ceg), layer), layer)
    ensures Travels(ceg, d, env, waves, FirstStates(ceg), layer)
  {
    CourseOpens(ceg, d, env, waves);
    LayersFollow(ceg, d, env, waves, FirstStates(ceg), layer);
  }

  /** The wave that stops a calm run is the first one of the plan that stops runs, and is poised then. */
  lemma FirstIsHalt(ceg: Ceg, d: Dispatch, env: Surroundings, waves: seq<seq<seq<Id>>>, l: nat, w: nat)
    requires Benign(ceg, d, waves, env) && StopsFirst(ceg, d, waves, l, w)
    ensures HaltsFirst(ceg, d, env, waves, FirstStates(ceg), l, w)
    ensures AllPoised(ceg, d, Reaching(ceg, d, waves, FirstStates(ceg), l, w), waves[l][w])
  {
    CalmLayers(ceg, d, env, waves, l);
    CalmWave(ceg, d, env, waves, Course(ceg, d, waves, FirstStates(ceg), l), l, w);
  }

  /** How a calm run ends. */
  ghost predicate EndsAs(ceg: Ceg, d: Dispatch, waves: seq<seq<seq<Id>>>, states: map<Id, Status>, r: RunResult)
    requires Backward(ceg)
  {
    && (r.Completed? || r.Escalated? || r.NeverReturns?)
    && (r.Escalated? <==> RunEscalates(ceg, d, waves))
    && (r.NeverReturns? <==> RunJams(ceg, d, waves))
    && (r.NeverReturns? ==> JamsFirst(ceg, d, waves, r.layer, r.wave) && Jams(ceg, d, waves))
    && (r.Completed? ==> AllArrived(ceg, d, states) && !Jams(ceg, d, waves))
  }

  /** Every node has come to what it means. */
  ghost predicate AllArrived(ceg: Ceg, d: Dispatch, states: map<Id, Status>)
    requires Backward(ceg)
  {
    forall n :: n in ceg.nodeMap ==> At(ceg, d, states, n)
  }

  lemma ClearRunsArrive(ceg: Ceg, d: Dispatch, env: Surroundings, waves: seq<seq<seq<Id>>>)
    requires Benign(ceg, d, waves, env) && ClearTo(ceg, d, waves, |waves|)
    ensures AllArrived(ceg, d, LastStates(ceg, d, waves, FirstStates(ceg)))
    ensures Travels(ceg, d, env, waves, FirstStates(ceg), |waves|)
  {
    var last := Course(ceg, d, waves, FirstStates(ceg), |waves|);
    CalmLayers(ceg, d, env, waves, |waves|);
    RefreshedIsRecomputed(ceg, last);
    RefreshAgrees(ceg, d, last);
    NextLayerPoised(ceg, d, last, Refreshed(ceg, last), |ceg.layers|);
    AllLayersPassed(ceg, d, Refreshed(ceg, last));
  }

  lemma {:induction false} FirstStopIn(ceg: Ceg, d: Dispatch, waves: seq<seq<Id>>, v: nat) returns (w: nat)
    requires Backward(ceg) && v < |waves| && WaveStops(ceg, d, waves[v])
    ensures w <= v && WaveStops(ceg, d, waves[w]) && NoneStops(ceg, d, waves, w)
  {
    if u: nat :| u < v && WaveStops(ceg, d, waves[u]) {
      w := FirstStopIn(ceg, d, waves, u);
    } else {
      w := v;
    }
  }

  lemma FirstStopOf(ceg: Ceg, d: Dispatch, waves: seq<seq<seq<Id>>>) returns (clear: bool, l: nat, w: nat)
    requires Backward(ceg)
    ensures clear ==> ClearTo(ceg, d, waves, |waves|)
    ensures !clear ==> StopsFirst(ceg, d, waves, l, w)
  {
    l, w, clear := 0, 0, true;
    while l < |waves|
      invariant l <= |waves| && ClearTo(ceg, d, waves, l)
    {
      if LayerStops(ceg, d, waves[l]) {
        var v: nat :| v < |waves[l]| && WaveStops(ceg, d, waves[l][v]);
        w := FirstStopIn(ceg, d, waves[l], v);
        return false, l, w;
      }
      NextIsClear(ceg, d, waves, l);
      l := l + 1;
    }
  }

  /** The first wave of the plan that stops runs decides how a calm run ends; with none, every node
      comes to what it means. */
  lemma CalmEnds(ceg: Ceg, d: Dispatch, env: Surroundings, waves: seq<seq<seq<Id>>>, r: RunResult,
                 states: map<Id, Status>)
    requires Benign(ceg, d, waves, env) && EndsWith(ceg, d, env, waves, FirstStates(ceg), r, states)
    ensures EndsAs(ceg, d, waves, states, r)
  {
    var first := FirstStates(ceg);
    var clear, l, w := FirstStopOf(ceg, d, waves);
    if clear {
      AllClear(ceg, d, waves);
      ClearRunsArrive(ceg, d, env, waves);
      if !r.Completed? {
        var m, v := StopOf(ceg, d, env, waves, first, r, states);
        PassedIsQuiet(ceg, d, env, waves, first, m, v, |waves|, 0);
      }
    } else {
      FirstIsHalt(ceg, d, env, waves, l, w);
      FirstDecides(ceg, d, waves, l, w);
      PoisedEscalates(ceg, d, Reaching(ceg, d, waves, first, l, w), waves[l][w]);
      if r.Completed? {
        PassedIsQuiet(ceg, d, env, waves, first, l, w, |waves|, 0);
      } else {
        var m, v := StopOf(ceg, d, env, waves, first, r, states);
        HaltsOnce(ceg, d, env, waves, first, l, w, m, v);
      }
    }
  }

  /** A calm run that has got to a wave has passed only layers and waves that stop nothing. */
  lemma GotToIsClear(ceg: Ceg, d: Dispatch, env: Surroundings, waves: seq<seq<seq<Id>>>, m: nat, v: nat)
    requires Benign(ceg, d, waves, env) && m < |waves| && v < |waves[m]|
    requires Travels(ceg, d, env, waves, FirstStates(ceg), m)
    requires PassesTo(ceg, d, env, waves[m], Course(ceg, d, waves, FirstStates(ceg), m), m, v)
    ensures ClearTo(ceg, d, waves, m) && NoneStops(ceg, d, waves[m], v)
  {
    var clear, l, w := FirstStopOf(ceg, d, waves);
    if clear {
      assert !LayerStops(ceg, d, waves[m]);
    } else {
      FirstIsHalt(ceg, d, env, waves, l, w);
      if l < m || (l == m && w < v) {
        PassedIsQuiet(ceg, d, env, waves, FirstStates(ceg), l, w, m, v);
      }
      if m < l {
        assert !LayerStops(ceg, d, waves[m]);
      }
    }
  }

  /** A calm run cuts no wait short. */
  lemma CalmForcesNone(ceg: Ceg, d: Dispatch, env: Surroundings, waves: seq<seq<seq<Id>>>)
    requires Benign(ceg, d, waves, env)
    ensures !ForcesSome(ceg, d, env, waves, FirstStates(ceg))
  {
    var first := FirstStates(ceg);
    forall m, v | 0 <= m < |waves| && 0 <= v < |waves[m]| && Travels(ceg, d, env, waves, first, m)
      ensures !ForcesAt(ceg, d, env, waves[m], Course(ceg, d, waves, first, m), m, v)
    {
      CalmNeverForces(ceg, d, env, waves, m, v);
    }
  }

  lemma CalmNeverForces(ceg: Ceg, d: Dispatch, env: Surroundings, waves: seq<seq<seq<Id>>>, m: nat, v: nat)
    requires Benign(ceg, d, waves, env) && m < |waves| && v < |waves[m]|
    requires Travels(ceg, d, env, waves, FirstStates(ceg), m)
    ensures !ForcesAt(ceg, d, env, waves[m], Course(ceg, d, waves, FirstStates(ceg), m), m, v)
  {
    var start := Course(ceg, d, waves, FirstStates(ceg), m);
    if PassesTo(ceg, d, env, waves[m], start, m, v) {
      GotToIsClear(ceg, d, env, waves, m, v);
      CalmLayers(ceg, d, env, waves, m);
      CalmWave(ceg, d, env, waves, start, m, v);
    }
  }

  lemma SteadyNeverEscalates(ceg: Ceg, d: Dispatch, waves: seq<seq<seq<Id>>>)
    requires Backward(ceg) && Steady(d)
    ensures !RunEscalates(ceg, d, waves)
  {
  }

  /** Of the nodes dispatched in the wave, none that does not escalate has an accepted answer other
      than TERMINATED. */
  ghost predicate OnlyTerminates(ceg: Ceg, d: Dispatch, wave: seq<Id>)
    requires Backward(ceg)
  {
    forall n :: n in wave && n in ceg.nodeMap && Fires(ceg, d, n) && !Escalates(d(n)) ==>
      !Allowed(Running, Outcome(d(n))) || Outcome(d(n)).Terminated?
  }

  lemma PoisedTerminates(ceg: Ceg, d: Dispatch, states: map<Id, Status>, wave: seq<Id>)
    requires Backward(ceg) && AllPoised(ceg, d, states, wave)
    ensures OthersTerminate(d, states, wave) <==> OnlyTerminates(ceg, d, wave)
  {
    PoisedFires(ceg, d, states, wave);
  }

  /** The final statuses of a calm run that escalates are the same for all times of arrival exactly
      when all other accepted answers of the escalating wave are TERMINATED too. */
  lemma FinalStatusesAreFixedIff(ceg: Ceg, d: Dispatch, env: Surroundings, waves: seq<seq<seq<Id>>>, l: nat, w: nat)
    requires Benign(ceg, d, waves, env) && EscalatesFirst(ceg, d, waves, l, w)
    ensures var before := Reaching(ceg, d, waves, FirstStates(ceg), l, w);
            (forall a, b :: EscalatesTo(d, a, before, waves[l][w]) == EscalatesTo(d, b, before, waves[l][w]))
            <==> OnlyTerminates(ceg, d, waves[l][w])
  {
    var before := Reaching(ceg, d, waves, FirstStates(ceg), l, w);
    FirstIsHalt(ceg, d, env, waves, l, w);
    PoisedTerminates(ceg, d, before, waves[l][w]);
    PoisedEscalates(ceg, d, before, waves[l][w]);
    EscalationIsFixedIff(d, before, waves[l][w]);
  }
}
