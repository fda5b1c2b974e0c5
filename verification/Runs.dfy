/** The runs of the scheduler: which commits it may make, and what every run keeps. */
module Runs {
  import opened Ids
  import opened Plans
  import opened Wiring
  import opened Statuses
  import opened Activating

  /** What dispatching a node answers: an error, or a result that may ask for escalation. */
  datatype Answer = Failed | Answered(status: Status, escalation: bool)

  type Dispatch = Id -> Answer

  /** The status the scheduler tries to commit for an answer. */
  function Outcome(a: Answer): Status {
    match a
    case Failed => Failure
    case Answered(status, escalation) => if escalation then Terminated else status
  }

  /** The first status of a node. */
  function Initial(ceg: Ceg, n: Id, states: map<Id, Status>): Status
    requires n in ceg.nodeMap && n in ceg.inDegree
  {
    if ceg.inDegree[n] != 0 then Blocked
    else if EvaluateActivation(ceg.nodeMap[n].activation, states) then Ready
    else Skipped
  }

  /** A commit in the ordinary course of a run. */
  ghost predicate OrdinaryStep(ceg: Ceg, d: Dispatch, states: map<Id, Status>, e: Event) {
    var n := e.node;
    && n in ceg.nodeMap && n in ceg.inDegree
    && if n !in states then e.status == Initial(ceg, n, states)
       else match states[n]
         case Blocked =>
           (e.status.Ready? && EvaluateActivation(ceg.nodeMap[n].activation, states)) ||
           (e.status.Skipped? && ShouldSkip(ceg.nodeMap[n].activation, states))
         case Ready => e.status.Running?
         case Running => e.status == Outcome(d(n)) && Allowed(Running, e.status)
         case _ => false
  }

  /** A commit that a deadline, a cancellation or an escalation forces. */
  ghost predicate ForcedStep(ceg: Ceg, states: map<Id, Status>, e: Event) {
    && e.node in ceg.nodeMap && e.node in ceg.inDegree
    && e.node in states && !IsTerminal(states[e.node]) && e.status.Terminated?
  }

  /** All running nodes belong to one wave. */
  ghost predicate Together(waves: seq<seq<seq<Id>>>, states: map<Id, Status>) {
    NoneRunning(states) || exists layer, w :: RunningIn(waves, layer, w, states)
  }

  ghost predicate NoneRunning(states: map<Id, Status>) {
    forall n :: n in states ==> !states[n].Running?
  }

  ghost predicate RunningIn(waves: seq<seq<seq<Id>>>, layer: nat, w: nat, states: map<Id, Status>) {
    && layer < |waves| && w < |waves[layer]|
    && (forall n :: n in states && states[n].Running? ==> n in waves[layer][w])
  }

  ghost predicate Step(ceg: Ceg, d: Dispatch, calm: bool, states: map<Id, Status>, e: Event) {
    OrdinaryStep(ceg, d, states, e) || (!calm && ForcedStep(ceg, states, e))
  }

  /** The logs a run may have written at any of its moments. In a calm run nothing is forced. */
  ghost predicate Run(ceg: Ceg, d: Dispatch, waves: seq<seq<seq<Id>>>, calm: bool, log: seq<Event>) {
    log == [] ||
    (var shorter := log[..|log| - 1];
     && Run(ceg, d, waves, calm, shorter)
     && Step(ceg, d, calm, After(shorter), log[|log| - 1])
     && Together(waves, After(log)))
  }

  lemma RunGrows(ceg: Ceg, d: Dispatch, waves: seq<seq<seq<Id>>>, calm: bool, log: seq<Event>, e: Event)
    requires Run(ceg, d, waves, calm, log)
    requires Step(ceg, d, calm, After(log), e)
    requires Together(waves, After(log)[e.node := e.status])
    ensures Run(ceg, d, waves, calm, log + [e])
  {
    LogGrows(log, e);
  }

  lemma {:induction false} RunPrefix(ceg: Ceg, d: Dispatch, waves: seq<seq<seq<Id>>>, calm: bool, log: seq<Event>,
                                     k: nat)
    requires Run(ceg, d, waves, calm, log) && k <= |log|
    ensures Run(ceg, d, waves, calm, log[..k])
  {
    if k < |log| {
      var shorter := log[..|log| - 1];
      RunPrefix(ceg, d, waves, calm, shorter, k);
      assert shorter[..k] == log[..k];
    } else {
      assert log[..k] == log;
    }
  }

  lemma {:induction false} CalmRunsAreRuns(ceg: Ceg, d: Dispatch, waves: seq<seq<seq<Id>>>, log: seq<Event>)
    requires Run(ceg, d, waves, true, log)
    ensures Run(ceg, d, waves, false, log)
  {
    if log != [] {
      CalmRunsAreRuns(ceg, d, waves, log[..|log| - 1]);
    }
  }

  /** Every commit of a run is one the engine accepts, and concerns a node of the graph. */
  lemma {:induction false} RunsAreValid(ceg: Ceg, d: Dispatch, waves: seq<seq<seq<Id>>>, calm: bool, log: seq<Event>)
    requires Run(ceg, d, waves, calm, log)
    ensures ValidLog(log)
    ensures After(log).Keys <= ceg.nodeMap.Keys
    ensures forall i :: 0 <= i < |log| ==> log[i].node in ceg.nodeMap
  {
    if log != [] {
      var shorter := log[..|log| - 1];
      RunsAreValid(ceg, d, waves, calm, shorter);
      assert forall i :: 0 <= i < |shorter| ==> log[i] == shorter[i];
    }
  }

  // ----- Activation safety -----

  ghost predicate Started(s: Status) {
    s.Ready? || s.Running? || s.Success? || s.Failure?
  }

  /** Whatever has started was activated by the successes its rule asks for. */
  ghost predicate Justified(ceg: Ceg, states: map<Id, Status>) {
    forall n :: n in states && Started(states[n]) ==>
      n in ceg.nodeMap && EvaluateActivation(ceg.nodeMap[n].activation, states)
  }

  /** At every moment of every run, whatever the deadlines, answers and escalations: an
      `all_success` node that has started has all its requirements SUCCESS, and an `any_success`
      node some candidate. */
  lemma {:induction false} ActivationSafety(ceg: Ceg, d: Dispatch, waves: seq<seq<seq<Id>>>, calm: bool,
                                            log: seq<Event>)
    requires Run(ceg, d, waves, calm, log)
    ensures Justified(ceg, After(log))
  {
    if log != [] {
      var shorter, e := log[..|log| - 1], log[|log| - 1];
      ActivationSafety(ceg, d, waves, calm, shorter);
      JustifiedStep(ceg, d, calm, After(shorter), e);
    }
  }

  lemma JustifiedStep(ceg: Ceg, d: Dispatch, calm: bool, states: map<Id, Status>, e: Event)
    requires Justified(ceg, states) && Step(ceg, d, calm, states, e)
    ensures Justified(ceg, states[e.node := e.status])
  {
  }

  // ----- What a run means -----

  /** A graph whose rules look at earlier nodes only. */
  ghost predicate Backward(ceg: Ceg) {
    && ceg.inDegree.Keys == ceg.nodeMap.Keys
    && (forall n :: n in ceg.nodeMap ==> LooksBack(ceg, n))
    && (forall n :: n in ceg.nodeMap && ceg.inDegree[n] == 0 ==> ceg.nodeMap[n].activation.Candidates() == [])
  }

  /** In addition, every rule of a node with predecessors can be decided. */
  ghost predicate WellFormed(ceg: Ceg) {
    && Backward(ceg)
    && (forall n :: n in ceg.nodeMap && ceg.inDegree[n] != 0 ==> Decidable(ceg.nodeMap[n].activation))
  }

  ghost predicate LooksBack(ceg: Ceg, n: Id)
    requires n in ceg.nodeMap
  {
    forall c :: c in ceg.nodeMap[n].activation.Candidates() ==>
      c in ceg.nodeMap && ceg.nodeMap[c].layer < ceg.nodeMap[n].layer
  }

  ghost predicate Decidable(a: Activation) {
    a.condition.AllSuccess? || (a.condition.AnySuccess? && a.Candidates() != [])
  }

  predicate Escalates(a: Answer) {
    a.Answered? && a.escalation
  }

  /** No answer escalates. */
  ghost predicate Steady(d: Dispatch) {
    forall n :: !Escalates(d(n))
  }

  /** Moreover the engine accepts every answer from a running node. */
  ghost predicate Cooperative(d: Dispatch) {
    forall n :: Allowed(Running, Outcome(d(n))) && !Escalates(d(n))
  }

  predicate Fails(s: Status) {
    IsTerminal(s) && !s.Success?
  }

  /** Whether node `n` is dispatched, by recursion over the graph alone. */
  ghost predicate Fires(ceg: Ceg, d: Dispatch, n: Id)
    requires Backward(ceg) && n in ceg.nodeMap
    decreases ceg.nodeMap[n].layer, 0
  {
    var a := ceg.nodeMap[n].activation;
    assert LooksBack(ceg, n);
    match a.condition
    case AllSuccess => forall c :: c in a.required ==> c in a.Candidates() && Meaning(ceg, d, c).Success?
    case AnySuccess => exists c :: c in a.Candidates() && Meaning(ceg, d, c).Success?
    case Other(_) => false
  }

  /** Whether the rule of node `n` is out of reach for good. */
  ghost predicate GivesUp(ceg: Ceg, d: Dispatch, n: Id)
    requires Backward(ceg) && n in ceg.nodeMap
    decreases ceg.nodeMap[n].layer, 0
  {
    var a := ceg.nodeMap[n].activation;
    assert LooksBack(ceg, n);
    match a.condition
    case AllSuccess => exists c :: c in a.required && c in a.Candidates() && Fails(Meaning(ceg, d, c))
    case AnySuccess => a.Candidates() != [] && forall c :: c in a.Candidates() ==> Fails(Meaning(ceg, d, c))
    case Other(_) => false
  }

  /** What a dispatched node comes to: a refused answer leaves it running. */
  function Landed(a: Answer): Status {
    if Allowed(Running, Outcome(a)) then Outcome(a) else Running
  }

  /** The status a node comes to when nothing is forced: what its dispatch comes to if it fires,
      SKIPPED if its rule is out of reach, BLOCKED if the rule is never decided. */
  ghost function Meaning(ceg: Ceg, d: Dispatch, n: Id): Status
    requires Backward(ceg) && n in ceg.nodeMap
    decreases ceg.nodeMap[n].layer, 1
  {
    if Fires(ceg, d, n) then Landed(d(n))
    else if ceg.inDegree[n] == 0 || GivesUp(ceg, d, n) then Skipped
    else Blocked
  }

  /** Where every rule can be decided and every answer is accepted, every node becomes terminal. */
  lemma {:induction false} MeaningIsTerminal(ceg: Ceg, d: Dispatch, n: Id)
    requires WellFormed(ceg) && Cooperative(d) && n in ceg.nodeMap
    ensures IsTerminal(Meaning(ceg, d, n))
    ensures Meaning(ceg, d, n) == if Fires(ceg, d, n) then Outcome(d(n)) else Skipped
    decreases ceg.nodeMap[n].layer
  {
    var a := ceg.nodeMap[n].activation;
    assert LooksBack(ceg, n);
    forall c | c in a.Candidates()
      ensures IsTerminal(Meaning(ceg, d, c))
    {
      MeaningIsTerminal(ceg, d, c);
    }
  }

  /** What the status of a node at any moment of a calm run says about its meaning. */
  ghost predicate Agrees(ceg: Ceg, d: Dispatch, n: Id, s: Status)
    requires Backward(ceg)
  {
    && n in ceg.nodeMap
    && match s
       case Blocked => ceg.inDegree[n] != 0
       case Ready => Fires(ceg, d, n)
       case Running => Fires(ceg, d, n)
       case _ => s == Meaning(ceg, d, n)
  }

  ghost predicate AllAgree(ceg: Ceg, d: Dispatch, states: map<Id, Status>)
    requires Backward(ceg)
  {
    forall n :: n in states ==> Agrees(ceg, d, n, states[n])
  }

  lemma TerminalsMean(ceg: Ceg, d: Dispatch, states: map<Id, Status>)
    requires Backward(ceg) && AllAgree(ceg, d, states)
    ensures forall c :: c in states && IsTerminal(states[c]) ==> c in ceg.nodeMap && Meaning(ceg, d, c) == states[c]
  {
    forall c | c in states && IsTerminal(states[c])
      ensures c in ceg.nodeMap && Meaning(ceg, d, c) == states[c]
    {
      assert Agrees(ceg, d, c, states[c]);
    }
  }

  lemma DueFires(ceg: Ceg, d: Dispatch, states: map<Id, Status>, n: Id)
    requires Backward(ceg) && AllAgree(ceg, d, states) && n in ceg.nodeMap
    requires EvaluateActivation(ceg.nodeMap[n].activation, states)
    ensures Fires(ceg, d, n)
  {
    var a := ceg.nodeMap[n].activation;
    assert LooksBack(ceg, n);
    TerminalsMean(ceg, d, states);
    match a.condition {
      case AllSuccess =>
        forall c | c in a.required
          ensures c in a.Candidates() && Meaning(ceg, d, c).Success?
        {
          var i :| 0 <= i < |a.required| && a.required[i] == c;
          assert Succeeded(states, a.required[i]);
        }
      case AnySuccess =>
        var i :| 0 <= i < |a.Candidates()| && Succeeded(states, a.Candidates()[i]);
        assert a.Candidates()[i] in a.Candidates();
      case Other(_) =>
    }
  }

  lemma SkippedGivesUp(ceg: Ceg, d: Dispatch, states: map<Id, Status>, n: Id)
    requires Backward(ceg) && AllAgree(ceg, d, states) && n in ceg.nodeMap
    requires ShouldSkip(ceg.nodeMap[n].activation, states)
    ensures GivesUp(ceg, d, n) && Meaning(ceg, d, n) == Skipped
  {
    var a := ceg.nodeMap[n].activation;
    assert LooksBack(ceg, n);
    TerminalsMean(ceg, d, states);
    match a.condition {
      case AllSuccess =>
        var i :| 0 <= i < |a.required| && FailedForGood(states, a.required[i]);
        assert a.required[i] in a.required && a.required[i] in a.Candidates();
        assert Fails(Meaning(ceg, d, a.required[i]));
      case AnySuccess =>
        forall c | c in a.Candidates()
          ensures Fails(Meaning(ceg, d, c))
        {
          var i :| 0 <= i < |a.Candidates()| && a.Candidates()[i] == c;
          assert FailedForGood(states, a.Candidates()[i]);
        }
        assert a.Candidates()[0] in a.Candidates();
      case Other(_) =>
    }
  }

  /** A root looks at nothing, so its first status already tells its meaning. */
  lemma RootsAgree(ceg: Ceg, d: Dispatch, states: map<Id, Status>, n: Id)
    requires Backward(ceg) && n in ceg.nodeMap && ceg.inDegree[n] == 0
    ensures EvaluateActivation(ceg.nodeMap[n].activation, states) <==> Fires(ceg, d, n)
  {
  }

  lemma AgreementStep(ceg: Ceg, d: Dispatch, states: map<Id, Status>, e: Event)
    requires Backward(ceg) && AllAgree(ceg, d, states) && OrdinaryStep(ceg, d, states, e)
    ensures AllAgree(ceg, d, states[e.node := e.status])
  {
    if e.node !in states {
      if ceg.inDegree[e.node] == 0 {
        RootsAgree(ceg, d, states, e.node);
      }
    } else {
      assert Agrees(ceg, d, e.node, states[e.node]);
      if states[e.node].Blocked? {
        if e.status.Ready? {
          DueFires(ceg, d, states, e.node);
        } else {
          SkippedGivesUp(ceg, d, states, e.node);
        }
      }
    }
    assert Agrees(ceg, d, e.node, e.status);
  }

  /** At every moment of every calm run of a graph whose rules look back, for every completion
      order, the statuses agree with the meaning; a terminal status is the meaning. */
  lemma {:induction false} RunsAgreeWithMeaning(ceg: Ceg, d: Dispatch, waves: seq<seq<seq<Id>>>, log: seq<Event>)
    requires Backward(ceg) && Run(ceg, d, waves, true, log)
    ensures AllAgree(ceg, d, After(log))
    ensures forall n :: n in After(log) && IsTerminal(After(log)[n]) ==>
              n in ceg.nodeMap && After(log)[n] == Meaning(ceg, d, n)
  {
    if log != [] {
      var shorter, e := log[..|log| - 1], log[|log| - 1];
      RunsAgreeWithMeaning(ceg, d, waves, shorter);
      AgreementStep(ceg, d, After(shorter), e);
    }
    TerminalsMean(ceg, d, After(log));
  }

  /** Two calm runs that both finish end in the same status map. */
  lemma CalmRunsConverge(ceg: Ceg, d: Dispatch, wavesA: seq<seq<seq<Id>>>, a: seq<Event>, wavesB: seq<seq<seq<Id>>>,
                         b: seq<Event>)
    requires Backward(ceg) && Run(ceg, d, wavesA, true, a) && Run(ceg, d, wavesB, true, b)
    requires Finished(ceg, After(a)) && Finished(ceg, After(b))
    ensures After(a) == After(b)
  {
    RunsAgreeWithMeaning(ceg, d, wavesA, a);
    RunsAgreeWithMeaning(ceg, d, wavesB, b);
    RunsAreValid(ceg, d, wavesA, true, a);
    RunsAreValid(ceg, d, wavesB, true, b);
  }

  ghost predicate Finished(ceg: Ceg, states: map<Id, Status>) {
    forall n :: n in ceg.nodeMap ==> n in states && IsTerminal(states[n])
  }

  // ----- Optional units -----

  /** An `any_success` node fires exactly if some required or some optional unit comes to SUCCESS, and
      gives up exactly if there are any and all of them fail. */
  lemma AnySuccessFires(ceg: Ceg, d: Dispatch, n: Id)
    requires Backward(ceg) && n in ceg.nodeMap && ceg.nodeMap[n].activation.condition.AnySuccess?
    ensures var a := ceg.nodeMap[n].activation;
            assert LooksBack(ceg, n);
            && (Fires(ceg, d, n) <==>
                  exists c :: (c in a.required || c in a.optional) && c in ceg.nodeMap && Meaning(ceg, d, c).Success?)
            && (GivesUp(ceg, d, n) <==>
                  && (a.required != [] || a.optional != [])
                  && forall c :: c in a.required || c in a.optional ==> c in ceg.nodeMap && Fails(Meaning(ceg, d, c)))
  {
    var a := ceg.nodeMap[n].activation;
    assert LooksBack(ceg, n);
    assert forall c :: c in a.Candidates() <==> c in a.required || c in a.optional;
  }

  /** At every moment of every run, some required or some optional unit of an `any_success` node that
      has started is SUCCESS. */
  lemma StartedOnSome(ceg: Ceg, d: Dispatch, waves: seq<seq<seq<Id>>>, calm: bool, log: seq<Event>, n: Id)
    requires Run(ceg, d, waves, calm, log) && n in After(log) && Started(After(log)[n])
    requires n in ceg.nodeMap && ceg.nodeMap[n].activation.condition.AnySuccess?
    ensures var a := ceg.nodeMap[n].activation;
            exists c :: (c in a.required || c in a.optional) && c in After(log) && After(log)[c].Success?
  {
    ActivationSafety(ceg, d, waves, calm, log);
    AnySuccessIff(ceg.nodeMap[n].activation, After(log));
  }

  lemma OptionalFires(ceg: Ceg, d: Dispatch, n: Id, c: Id)
    requires Backward(ceg) && n in ceg.nodeMap && ceg.nodeMap[n].activation.condition.AnySuccess?
    requires c in ceg.nodeMap[n].activation.optional && c in ceg.nodeMap && Meaning(ceg, d, c).Success?
    ensures Fires(ceg, d, n) && Meaning(ceg, d, n) == Landed(d(n))
  {
    AnySuccessFires(ceg, d, n);
  }

  /** One success among the optional units is enough: the node is not skipped, whatever its required
      units have come to, but ends as its own dispatch says. */
  lemma OptionalSuffices(ceg: Ceg, d: Dispatch, waves: seq<seq<seq<Id>>>, log: seq<Event>, n: Id, c: Id)
    requires Backward(ceg) && Run(ceg, d, waves, true, log) && n in ceg.nodeMap
    requires ceg.nodeMap[n].activation.condition.AnySuccess? && c in ceg.nodeMap[n].activation.optional
    requires c in After(log) && After(log)[c].Success? && n in After(log)
    ensures Fires(ceg, d, n) && Meaning(ceg, d, n) == Landed(d(n))
    ensures IsTerminal(After(log)[n]) ==> After(log)[n] == Outcome(d(n)) && !After(log)[n].Skipped?
  {
    RunsAgreeWithMeaning(ceg, d, waves, log);
    OptionalFires(ceg, d, n, c);
    assert Agrees(ceg, d, n, After(log)[n]);
  }

  // ----- Answers -----

  /** What a dispatched node comes to, by its answer: an error is FAILURE, an answer that asks for
      escalation TERMINATED, any other one its own status, if that is an ending other than SKIPPED; the
      engine refuses the rest, and the node stays RUNNING. */
  lemma AnswersDecide(ceg: Ceg, d: Dispatch, n: Id)
    requires Backward(ceg) && n in ceg.nodeMap && Fires(ceg, d, n)
    ensures d(n) == Failed ==> Meaning(ceg, d, n) == Failure
    ensures forall s :: d(n) == Answered(s, true) ==> Meaning(ceg, d, n) == Terminated
    ensures forall s :: d(n) == Answered(s, false) ==>
              Meaning(ceg, d, n) == if s == Success || s == Failure || s == Terminated then s else Running
  {
  }

  /** The same at the end of every calm run, whatever the order of answers. */
  lemma FinishedAsAnswered(ceg: Ceg, d: Dispatch, waves: seq<seq<seq<Id>>>, log: seq<Event>, n: Id)
    requires Backward(ceg) && Run(ceg, d, waves, true, log) && n in After(log) && IsTerminal(After(log)[n])
    requires Running in History(log, n)
    ensures d(n) == Failed ==> After(log)[n] == Failure
    ensures forall s, e :: d(n) == Answered(s, e) ==> After(log)[n] == if e then Terminated else s
  {
    RunsAgreeWithMeaning(ceg, d, waves, log);
    RunsAreValid(ceg, d, waves, true, log);
    RanHasFired(ceg, d, waves, log, n);
    AnswersDecide(ceg, d, n);
  }

  lemma {:induction false} RanHasFired(ceg: Ceg, d: Dispatch, waves: seq<seq<seq<Id>>>, log: seq<Event>, n: Id)
    requires Backward(ceg) && Run(ceg, d, waves, true, log) && Running in History(log, n)
    ensures n in ceg.nodeMap && Fires(ceg, d, n)
  {
    var shorter, e := log[..|log| - 1], log[|log| - 1];
    if Running in History(shorter, n) {
      RanHasFired(ceg, d, waves, shorter, n);
    } else {
      RunsAgreeWithMeaning(ceg, d, waves, log);
      assert After(log)[n].Running? && Agrees(ceg, d, n, After(log)[n]);
    }
  }
}
