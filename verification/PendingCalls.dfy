/**
 * The controller's pending calls: `RPC::ipc_request` draws an id and waits for the reply that
 * carries it, while `RPC::run` takes replies from the manager and fulfils the promises.
 */
module PendingCalls {
  import opened Wrappers
  import opened Json

  // ---- The table ----

  /** `ipc_calls`: the promise of each pending id, with its value once it is set. */
  type Table = map<nat, Option<Json>>

  /** A reply in `RPC::run`: unknown ids, and promises already set, are passed over. */
  function Fulfil(table: Table, id: nat, result: Json): Table {
    if id in table && table[id].None? then table[id := Some(result)] else table
  }

  class Rpc {
    var ipcCalls: Table

    constructor ()
      ensures ipcCalls == map[]
    {
      ipcCalls := map[];
    }

    /** The drawing of an id in `ipc_request`; `draws` are the next numbers of the generator. */
    method Draw(draws: seq<nat>) returns (id: nat, used: nat)
      requires exists i :: 0 <= i < |draws| && draws[i] !in ipcCalls
      modifies this
      ensures used < |draws| && draws[used] == id && id !in old(ipcCalls)
      ensures forall i :: 0 <= i < used ==> draws[i] in old(ipcCalls)
      ensures ipcCalls == old(ipcCalls)[id := None]
    {
      used := 0;
      while draws[used] in ipcCalls
        invariant used < |draws| && ipcCalls == old(ipcCalls)
        invariant forall i :: 0 <= i < used ==> draws[i] in ipcCalls
        decreases |draws| - used
      {
        used := used + 1;
      }
      id := draws[used];
      ipcCalls := ipcCalls[id := None];
    }

    /** One reply in the loop of `run`. */
    method HandleReply(id: nat, result: Json)
      modifies this
      ensures ipcCalls == Fulfil(old(ipcCalls), id, result)
    {
      if id !in ipcCalls {
        return;
      }
      if ipcCalls[id].None? {
        ipcCalls := ipcCalls[id := Some(result)];
      }
    }

    method Erase(id: nat)
      requires id in ipcCalls
      modifies this
      ensures ipcCalls == old(ipcCalls) - {id}
    {
      ipcCalls := ipcCalls - {id};
    }
  }

  // ---- Calls, replies and time-outs ----

  /** A call waits, has its wait ended with a value or by time-out, or has returned or thrown. */
  datatype Status = Waiting | Woken(outcome: Option<Json>) | Returned(value: Json) | TimedOut

  /** The request of a call and its reply, of which the manager makes at most one. */
  datatype Wire = Unsent | Requested | InFlight(result: Json) | Delivered(result: Json)

  datatype Call = Call(id: nat, status: Status, wire: Wire)
  {
    /** The call is not erased yet. */
    predicate Pending() {
      status.Waiting? || status.Woken?
    }
  }

  datatype State = State(table: Table, calls: map<nat, Call>)

  datatype Step =
    | Register(c: nat, id: nat)
    | Send(c: nat)
    | Reply(c: nat, result: Json)
    | Deliver(c: nat)
    | Wake(c: nat)
    | Timeout(c: nat)
    | Erase(c: nat)

  predicate Enabled(s: State, step: Step) {
    match step
    case Register(c, id) => c !in s.calls && id !in s.table
    case Send(c) => c in s.calls && s.calls[c].status.Waiting? && s.calls[c].wire.Unsent?
    case Reply(c, _) => c in s.calls && s.calls[c].wire.Requested?
    case Deliver(c) => c in s.calls && s.calls[c].wire.InFlight?
    case Wake(c) =>
      && c in s.calls && s.calls[c].status.Waiting? && !s.calls[c].wire.Unsent?
      && s.calls[c].id in s.table && s.table[s.calls[c].id].Some?
    case Timeout(c) => c in s.calls && s.calls[c].status.Waiting? && !s.calls[c].wire.Unsent?
    case Erase(c) => c in s.calls && s.calls[c].status.Woken?
  }

  function Apply(s: State, step: Step): State
    requires Enabled(s, step)
  {
    match step
    case Register(c, id) => State(s.table[id := None], s.calls[c := Call(id, Waiting, Unsent)])
    case Send(c) => s.(calls := s.calls[c := s.calls[c].(wire := Requested)])
    case Reply(c, result) => s.(calls := s.calls[c := s.calls[c].(wire := InFlight(result))])
    case Deliver(c) =>
      var call := s.calls[c];
      State(Fulfil(s.table, call.id, call.wire.result), s.calls[c := call.(wire := Delivered(call.wire.result))])
    case Wake(c) => s.(calls := s.calls[c := s.calls[c].(status := Woken(s.table[s.calls[c].id]))])
    case Timeout(c) => s.(calls := s.calls[c := s.calls[c].(status := Woken(None))])
    case Erase(c) =>
      var call := s.calls[c];
      State(s.table - {call.id},
            s.calls[c := call.(status := if call.status.outcome.Some? then Returned(call.status.outcome.value)
                                         else TimedOut)])
  }

  const START := State(map[], map[])

  /** No reply to an earlier call with this id is still to come. */
  predicate NoOldReply(s: State, id: nat) {
    forall c :: c in s.calls && s.calls[c].id == id ==> s.calls[c].wire.Delivered?
  }

  predicate Careful(s: State, step: Step) {
    step.Register? ==> NoOldReply(s, step.id)
  }

  function Run(s: State, steps: seq<Step>): Option<State>
    decreases |steps|
  {
    if steps == [] then Some(s)
    else if !Enabled(s, steps[0]) then None
    else Run(Apply(s, steps[0]), steps[1..])
  }

  /** In a run, ids are only drawn again when no old reply is outstanding. */
  predicate CarefulRun(s: State, steps: seq<Step>)
    decreases |steps|
  {
    steps == [] || (Enabled(s, steps[0]) && Careful(s, steps[0]) && CarefulRun(Apply(s, steps[0]), steps[1..]))
  }

  // ---- The table is the calls not yet erased ----

  predicate HasCall(s: State, id: nat) {
    exists c :: c in s.calls && s.calls[c].Pending() && s.calls[c].id == id
  }

  predicate PendingAreInTable(s: State) {
    forall c :: c in s.calls && s.calls[c].Pending() ==> s.calls[c].id in s.table
  }

  predicate IdsAreDistinct(s: State) {
    forall c, d :: c in s.calls && d in s.calls ==>
      s.calls[c].Pending() && s.calls[d].Pending() && s.calls[c].id == s.calls[d].id ==> c == d
  }

  predicate TableInv(s: State) {
    PendingAreInTable(s) && IdsAreDistinct(s) && forall id {:trigger HasCall(s, id)} :: id in s.table ==> HasCall(s, id)
  }

  lemma StepPreservesIds(s: State, step: Step)
    requires PendingAreInTable(s) && IdsAreDistinct(s) && Enabled(s, step)
    ensures PendingAreInTable(Apply(s, step)) && IdsAreDistinct(Apply(s, step))
  {
  }

  lemma StepPreservesHasCall(s: State, step: Step, id: nat)
    requires Enabled(s, step) && id in Apply(s, step).table
    requires id in s.table ==> HasCall(s, id)
    ensures HasCall(Apply(s, step), id)
  {
    var s' := Apply(s, step);
    if step.Register? && id == step.id {
      assert s'.calls[step.c].Pending();
    } else {
      var c :| c in s.calls && s.calls[c].Pending() && s.calls[c].id == id;
      assert s'.calls[c].Pending() && s'.calls[c].id == id;
    }
  }

  lemma StepPreservesTable(s: State, step: Step)
    requires TableInv(s) && Enabled(s, step)
    ensures TableInv(Apply(s, step))
  {
    StepPreservesIds(s, step);
    forall id | id in Apply(s, step).table
      ensures HasCall(Apply(s, step), id)
    {
      assert id in s.table ==> HasCall(s, id);
      StepPreservesHasCall(s, step, id);
    }
  }

  /**
   * In every run, careful or not, the pending map has exactly the ids of the calls not yet erased,
   * each of one call.
   */
  lemma {:induction false} TableIsPendingCalls(s: State, steps: seq<Step>)
    requires TableInv(s) && Run(s, steps).Some?
    ensures TableInv(Run(s, steps).value)
    decreases |steps|
  {
    if steps != [] {
      StepPreservesTable(s, steps[0]);
      TableIsPendingCalls(Apply(s, steps[0]), steps[1..]);
    }
  }

  // ---- Replies reach their own calls ----

  /** A pending call's promise is set exactly by its own reply; ended calls had their own reply, or none. */
  predicate CallInv(s: State, c: nat)
    requires c in s.calls
  {
    var call := s.calls[c];
    && (call.Pending() ==>
          call.id in s.table && s.table[call.id] == if call.wire.Delivered? then Some(call.wire.result) else None)
    && (call.status.Woken? && call.status.outcome.Some? ==> call.wire == Delivered(call.status.outcome.value))
    && (call.status.Returned? ==> call.wire == Delivered(call.status.value))
    && (!call.status.Waiting? ==> !call.wire.Unsent?)
    && (!call.Pending() && !call.wire.Delivered? ==> call.id !in s.table)
  }

  predicate Inv(s: State) {
    TableInv(s) && forall c {:trigger CallInv(s, c)} :: c in s.calls ==> CallInv(s, c)
  }

  lemma StepPreservesCall(s: State, step: Step, c: nat)
    requires Inv(s) && Enabled(s, step) && Careful(s, step) && c in Apply(s, step).calls
    ensures CallInv(Apply(s, step), c)
  {
    assert c in s.calls ==> CallInv(s, c);
    if step.Deliver? {
      assert CallInv(s, step.c);
    }
  }

  lemma StepPreservesInv(s: State, step: Step)
    requires Inv(s) && Enabled(s, step) && Careful(s, step)
    ensures Inv(Apply(s, step))
  {
    StepPreservesTable(s, step);
    forall c | c in Apply(s, step).calls
      ensures CallInv(Apply(s, step), c)
    {
      StepPreservesCall(s, step, c);
    }
  }

  lemma {:induction false} RunPreservesInv(s: State, steps: seq<Step>)
    requires Inv(s) && CarefulRun(s, steps)
    ensures Run(s, steps).Some? && Inv(Run(s, steps).value)
    decreases |steps|
  {
    if steps != [] {
      StepPreservesInv(s, steps[0]);
      RunPreservesInv(Apply(s, steps[0]), steps[1..]);
    }
  }

  /**
   * In every interleaving of callers, replies and time-outs in which no id is drawn again while
   * an old reply for it is to come: a call that returns a value returns the reply to itself; a
   * reply finds its promise unset; and a late reply, to a call already erased, changes nothing.
   */
  lemma RepliesReachTheirCalls(steps: seq<Step>, c: nat)
    requires CarefulRun(START, steps) && Run(START, steps).Some? && c in Run(START, steps).value.calls
    ensures var s := Run(START, steps).value;
            var call := s.calls[c];
            && (call.status.Returned? ==> call.wire == Delivered(call.status.value))
            && (call.wire.InFlight? && call.Pending() ==> call.id in s.table && s.table[call.id] == None)
            && (call.wire.InFlight? && !call.Pending() ==> Apply(s, Deliver(c)).table == s.table)
  {
    RunPreservesInv(START, steps);
    assert CallInv(Run(START, steps).value, c);
  }

  // ---- What a careless draw leads to ----

  /** A call has returned a value that is not the reply to it. */
  predicate Misdirected(s: State) {
    exists c :: c in s.calls && s.calls[c].status.Returned? && s.calls[c].wire != Delivered(s.calls[c].status.value)
  }

  /** Some run without another careless draw ends with a misdirected reply. */
  ghost predicate CanGoWrong(s: State) {
    exists steps :: CarefulRun(s, steps) && Run(s, steps).Some? && Misdirected(Run(s, steps).value)
  }

  /** Call `d`, whose reply is to come, gets it delivered while call `c` waits under the same id. */
  function OldReplyArrives(c: nat, d: nat): seq<Step> {
    [Send(c), Deliver(d), Wake(c), Erase(c)]
  }

  lemma RunOfFour(s: State, a: Step, b: Step, c: Step, d: Step)
    requires !a.Register? && !b.Register? && !c.Register? && !d.Register?
    requires Enabled(s, a) && Enabled(Apply(s, a), b) && Enabled(Apply(Apply(s, a), b), c)
    requires Enabled(Apply(Apply(Apply(s, a), b), c), d)
    ensures Run(s, [a, b, c, d]) == Some(Apply(Apply(Apply(Apply(s, a), b), c), d)) && CarefulRun(s, [a, b, c, d])
  {
    var s1 := Apply(s, a);
    var s2 := Apply(s1, b);
    var s3 := Apply(s2, c);
    assert Run(s3, [d]) == Run(Apply(s3, d), []) && CarefulRun(s3, [d]);
    assert [c, d][1..] == [d];
    assert Run(s2, [c, d]) == Run(s3, [d]) && CarefulRun(s2, [c, d]);
    assert [b, c, d][1..] == [c, d];
    assert Run(s1, [b, c, d]) == Run(s2, [c, d]) && CarefulRun(s1, [b, c, d]);
    assert [a, b, c, d][1..] == [b, c, d];
  }

  /**
   * From every state: an id drawn while the reply `old'` to an earlier call is on its way brings it
   * to the new call.
   */
  lemma RedrawnIdGetsOldReply(s: State, c: nat, id: nat, d: nat, old': Json)
    requires Inv(s) && Enabled(s, Register(c, id))
    requires d in s.calls && s.calls[d].id == id && s.calls[d].wire == InFlight(old')
    ensures var s1 := Apply(s, Register(c, id));
            && CarefulRun(s1, OldReplyArrives(c, d))
            && var run := Run(s1, OldReplyArrives(c, d));
               && run.Some? && c in run.value.calls
               && run.value.calls[c].status == Returned(old') && run.value.calls[c].wire == Requested
  {
    assert CallInv(s, d);
    RunOfFour(Apply(s, Register(c, id)), Send(c), Deliver(d), Wake(c), Erase(c));
  }

  /** The same for a call whose request is out: the manager may answer it first. */
  lemma CarelessDrawGoesWrong(s: State, c: nat, id: nat)
    requires Inv(s) && Enabled(s, Register(c, id)) && !NoOldReply(s, id)
    ensures CanGoWrong(Apply(s, Register(c, id)))
  {
    var d :| d in s.calls && s.calls[d].id == id && !s.calls[d].wire.Delivered?;
    assert CallInv(s, d) && !s.calls[d].Pending();
    var s1 := Apply(s, Register(c, id));
    if s.calls[d].wire.InFlight? {
      RedrawnIdGetsOldReply(s, c, id, d, s.calls[d].wire.result);
      assert Misdirected(Run(s1, OldReplyArrives(c, d)).value);
    } else {
      var t := Apply(s, Reply(d, Null));
      StepPreservesInv(s, Reply(d, Null));
      RedrawnIdGetsOldReply(t, c, id, d, Null);
      var steps := [Reply(d, Null)] + OldReplyArrives(c, d);
      assert Apply(t, Register(c, id)) == Apply(s1, Reply(d, Null));
      assert steps[1..] == OldReplyArrives(c, d);
      assert Run(s1, steps) == Run(Apply(s1, Reply(d, Null)), OldReplyArrives(c, d));
      assert CarefulRun(s1, steps);
      assert Misdirected(Run(s1, steps).value);
    }
  }

  lemma InvIsNotMisdirected(s: State)
    requires Inv(s)
    ensures !Misdirected(s)
  {
    forall c | c in s.calls
      ensures s.calls[c].status.Returned? ==> s.calls[c].wire == Delivered(s.calls[c].status.value)
    {
      assert CallInv(s, c);
    }
  }

  /**
   * The care is exact: in every state, drawing an id can lead to a reply that reaches the wrong
   * call if and only if a reply to an earlier call with this id is still to come.
   */
  lemma CareIsExact(s: State, c: nat, id: nat)
    requires Inv(s) && Enabled(s, Register(c, id))
    ensures CanGoWrong(Apply(s, Register(c, id))) <==> !Careful(s, Register(c, id))
  {
    if Careful(s, Register(c, id)) {
      StepPreservesInv(s, Register(c, id));
      var s1 := Apply(s, Register(c, id));
      forall steps | CarefulRun(s1, steps) && Run(s1, steps).Some?
        ensures !Misdirected(Run(s1, steps).value)
      {
        RunPreservesInv(s1, steps);
        InvIsNotMisdirected(Run(s1, steps).value);
      }
    } else {
      CarelessDrawGoesWrong(s, c, id);
    }
  }
}
