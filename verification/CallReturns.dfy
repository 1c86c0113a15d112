/** From every live state of the whole system, every call in flight comes back. */
module CallReturns {
  import opened Wrappers
  import opened CallSystem
  import opened CallRuns
  import G = CallProgress

  predicate AllFinishing(steps: seq<Step>) {
    forall step :: step in steps ==> Finishing(step)
  }

  /** A call in flight stays so or returns. */
  predicate ReturnsOrGoesOn(s: System, s': System) {
    G.ReturnsOrGoesOn(Abstract(s), Abstract(s'))
  }

  lemma FinishingReturnsOrGoesOn(s: System, step: Step)
    requires Good(s) && Enabled(s, step) && Finishing(step)
    ensures ReturnsOrGoesOn(s, Apply(s, step))
  {
    StepRefines(s, step);
    ProtocolOfStep(step);
    if Protocol(step).Some? {
      G.AdvancingReturnsOrGoesOn(Abstract(s), Protocol(step).value);
    }
  }

  lemma RunPrepend(s: System, step: Step, rest: seq<Step>)
    requires Enabled(s, step) && Run(Apply(s, step), rest).Some?
    ensures Run(s, [step] + rest) == Run(Apply(s, step), rest)
    ensures Finishing(step) && AllFinishing(rest) ==> AllFinishing([step] + rest)
  {
    assert ([step] + rest)[1..] == rest;
  }

  /** One step towards the return of a call in flight, with all that the induction needs. */
  lemma StepTowardsReturn(s: System, rank: G.Rank, id: string) returns (step: Step)
    requires Live(s, rank) && id in s.calls && s.calls[id].InFlight()
    ensures Enabled(s, step) && Finishing(step) && Live(Apply(s, step), rank)
    ensures Below(Apply(s, step), s) && ReturnsOrGoesOn(s, Apply(s, step))
  {
    step := NextStep(s, rank, id);
    OrderlyStepIsLive(s, rank, step);
    FinishingReturnsOrGoesOn(s, step);
  }

  /**
   * From every live state some finite run of publishing, delivering, taking, routing, dispatching,
   * answering and returning leaves no call in flight, and every call that was has returned.
   */
  lemma EveryCallComesBack(s: System, rank: G.Rank, m: G.Measure, way: nat) returns (steps: seq<Step>, s': System)
    requires Live(s, rank) && m == G.MeasureOf(Abstract(s)) && way == Way(s)
    ensures Run(s, steps) == Some(s') && Live(s', rank) && AllFinishing(steps)
    ensures forall id :: id in s'.calls ==> !s'.calls[id].InFlight()
    ensures ReturnsOrGoesOn(s, s')
    decreases m.unanswered, m.untaken, m.popped, m.busy, m.inFlight, way
  {
    if id :| id in s.calls && s.calls[id].InFlight() {
      var step := StepTowardsReturn(s, rank, id);
      var s1 := Apply(s, step);
      var rest;
      rest, s' := EveryCallComesBack(s1, rank, G.MeasureOf(Abstract(s1)), Way(s1));
      steps := [step] + rest;
      RunPrepend(s, step, rest);
      G.GoesOnTransitive(Abstract(s), Abstract(s1), Abstract(s'));
    } else {
      steps, s' := [], s;
    }
  }

  /** In particular after every orderly run from the start. */
  lemma AfterEveryOrderlyRun(s0: System, rank: G.Rank, steps: seq<Step>) returns (more: seq<Step>, s': System)
    requires Init(s0) && OrderlyRun(s0, rank, steps)
    ensures Run(s0, steps).Some? && Run(Run(s0, steps).value, more) == Some(s') && AllFinishing(more)
    ensures forall id :: id in s'.calls ==> !s'.calls[id].InFlight()
    ensures ReturnsOrGoesOn(Run(s0, steps).value, s')
  {
    InitRefines(s0);
    G.InitLive(Abstract(s0), rank);
    OrderlyRunIsLive(s0, rank, steps);
    var s := Run(s0, steps).value;
    more, s' := EveryCallComesBack(s, rank, G.MeasureOf(Abstract(s)), Way(s));
  }
}
