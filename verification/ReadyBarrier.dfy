/**
 * The start of a system: the manager waits until every module it does not ignore has signalled
 * that it is ready, then publishes the global ready, upon which each module runs its own ready
 * handler.
 */
module ReadyBarrier {
  import opened Wrappers
  import opened Json
  import opened Strings

  // ---- One message ----

  /** A module's side: `onReady` says whether its handler is set, `ran` counts its calls. */
  datatype Module = Module(connected: bool, onReady: bool, received: bool, ran: nat, inbox: seq<Json>)

  const NEW_MODULE := Module(false, false, false, 0, [])

  /** `Everest::handle_ready`. */
  function HandleReady(m: Module, data: Json): Module {
    if data != Bool(true) || m.received then m
    else m.(received := true, ran := if m.onReady then m.ran + 1 else m.ran)
  }

  predicate AllReady(table: map<string, bool>) {
    forall m :: m in table ==> table[m]
  }

  class Everest {
    var readyReceived: bool
    var onReady: bool
    ghost var ran: nat

    ghost function View(connected: bool, inbox: seq<Json>): Module
      reads this
    {
      Module(connected, onReady, readyReceived, ran, inbox)
    }

    constructor ()
      ensures View(false, []) == NEW_MODULE
    {
      readyReceived, onReady, ran := false, false, 0;
    }

    method RegisterOnReadyHandler()
      modifies this
      ensures forall c, i :: View(c, i) == old(View(c, i)).(onReady := true)
    {
      onReady := true;
    }

    /** `handle_ready`: anything but `true` is ignored, and so is every ready after the first. */
    method HandleReadySignal(data: Json)
      modifies this
      ensures forall c, i :: View(c, i) == HandleReady(old(View(c, i)), data)
    {
      var ready := false;
      if data.Bool? {
        ready := data.b;
      }
      if !ready {
        return;
      }
      if readyReceived {
        return;
      }
      readyReceived := true;
      if onReady {
        ran := ran + 1;
      }
    }
  }

  class Manager {
    var modulesReady: map<string, bool>

    constructor ()
      ensures modulesReady == map[]
    {
      modulesReady := map[];
    }

    /** One turn of the loop of `start_modules`. */
    method AddModule(m: string)
      modifies this
      ensures modulesReady == if m in old(modulesReady) then old(modulesReady) else old(modulesReady)[m := false]
    {
      if m !in modulesReady {
        modulesReady := modulesReady[m := false];
      }
    }

    /**
     * The loop of `start_modules`, undisturbed: it registers the modules that are not ignored in
     * the order of their ids, and leaves those that are not standalone to be spawned afterwards.
     */
    method StartModules(main: set<string>, ignored: set<string>, standalone: set<string>, ghost s: State)
      returns (toSpawn: seq<string>, ghost steps: seq<Step>)
      requires modulesReady == map[]
      requires s.table == map[] && s.waited == main - ignored && s.standalone == standalone
      modifies this
      ensures FreeRun(s, steps) == Some(s.(table := modulesReady)) && Registered(s.(table := modulesReady))
      ensures forall m :: m in modulesReady ==> !modulesReady[m]
      ensures forall m :: m in toSpawn <==> m in s.waited && m !in standalone
      ensures forall i, j :: 0 <= i < j < |toSpawn| ==> Less(toSpawn[i], toSpawn[j])
    {
      toSpawn, steps := [], [];
      var todo := main;
      while todo != {}
        invariant todo <= main && modulesReady.Keys == main - ignored - todo
        invariant forall m :: m in modulesReady ==> !modulesReady[m]
        invariant FreeRun(s, steps) == Some(s.(table := modulesReady))
        invariant forall m :: m in toSpawn <==> m in modulesReady && m !in standalone
        invariant forall m, k :: m in toSpawn && k in todo ==> Less(m, k)
        invariant forall i, j :: 0 <= i < j < |toSpawn| ==> Less(toSpawn[i], toSpawn[j])
        decreases todo
      {
        var id := LeastKey(todo);
        if id !in ignored {
          AddIsNext(s, steps, modulesReady, id);
          AddModule(id);
          steps := steps + [Step.AddModule(id)];
          if id !in standalone {
            toSpawn := toSpawn + [id];
          }
        }
        todo := todo - {id};
      }
    }

    /** The ready handler of a module: sets its flag, and publishes the global ready if all are set. */
    method HandleModuleReady(m: string, ready: bool) returns (publish: bool)
      requires m in modulesReady
      modifies this
      ensures modulesReady == old(modulesReady)[m := ready]
      ensures publish <==> AllReady(modulesReady)
    {
      modulesReady := modulesReady[m := ready];
      publish := true;
      var todo := modulesReady.Keys;
      while todo != {} && publish
        invariant todo <= modulesReady.Keys
        invariant publish ==> forall k :: k in modulesReady && k !in todo ==> modulesReady[k]
        invariant !publish ==> !AllReady(modulesReady)
        modifies {}
        decreases todo
      {
        var k :| k in todo;
        publish := modulesReady[k];
        todo := todo - {k};
      }
    }
  }

  // ---- The system ----

  /**
   * `waited` are the modules that are not ignored; those not `standalone` are spawned by the
   * manager. `table` has the manager's flags. `sent` are the signals of each module, `handled` how
   * many of them the manager took; `globals` counts the global ready messages.
   */
  datatype State = State(
    waited: set<string>,
    standalone: set<string>,
    table: map<string, bool>,
    modules: map<string, Module>,
    sent: map<string, seq<bool>>,
    handled: map<string, nat>,
    globals: nat)

  datatype Step =
    | AddModule(m: string)
    | Connect(m: string)
    | RegisterOnReady(m: string)
    | Signal(m: string, ready: bool)
    | ManagerTakes(m: string)
    | Stray(m: string, data: Json)
    | ModuleTakes(m: string)

  /** `m` comes first in the order of a JSON object's items. */
  predicate First(ids: set<string>, m: string) {
    m in ids && forall k :: k in ids && k != m ==> Less(m, k)
  }

  predicate Registered(s: State) {
    s.table.Keys == s.waited
  }

  /**
   * `start_modules` registers in the order of ids, and spawns modules after that. Modules start as
   * the loader does it: connect, set the ready handler, signal. Standalone modules, and those that
   * are ignored, may do so at any time.
   */
  predicate Enabled(s: State, step: Step) {
    match step
    case AddModule(m) => First(s.waited - s.table.Keys, m)
    case Connect(m) => m in s.modules && (m in s.waited && m !in s.standalone ==> Registered(s))
    case RegisterOnReady(m) => m in s.modules && s.modules[m].connected
    case Signal(m, _) => m in s.modules && m in s.sent && s.modules[m].connected && s.modules[m].onReady
    case ManagerTakes(m) => m in s.table && m in s.sent && m in s.handled && s.handled[m] < |s.sent[m]|
    case Stray(m, data) => m in s.modules && data != Bool(true)
    case ModuleTakes(m) => m in s.modules && s.modules[m].inbox != []
  }

  function Broadcast(modules: map<string, Module>): map<string, Module> {
    map m | m in modules :: if modules[m].connected then modules[m].(inbox := modules[m].inbox + [Bool(true)])
                            else modules[m]
  }

  function Apply(s: State, step: Step): State
    requires Enabled(s, step)
  {
    match step
    case AddModule(m) => s.(table := s.table[m := false])
    case Connect(m) => s.(modules := s.modules[m := s.modules[m].(connected := true)])
    case RegisterOnReady(m) => s.(modules := s.modules[m := s.modules[m].(onReady := true)])
    case Signal(m, ready) => s.(sent := s.sent[m := s.sent[m] + [ready]])
    case ManagerTakes(m) =>
      var s' := s.(table := s.table[m := s.sent[m][s.handled[m]]], handled := s.handled[m := s.handled[m] + 1]);
      if AllReady(s'.table) then s'.(modules := Broadcast(s.modules), globals := s.globals + 1) else s'
    case Stray(m, data) => s.(modules := s.modules[m := s.modules[m].(inbox := s.modules[m].inbox + [data])])
    case ModuleTakes(m) =>
      var module' := s.modules[m];
      s.(modules := s.modules[m := HandleReady(module', module'.inbox[0]).(inbox := module'.inbox[1..])])
  }

  predicate Init(s: State) {
    && s.table == map[] && s.globals == 0
    && s.waited <= s.modules.Keys && s.sent.Keys == s.modules.Keys && s.handled.Keys == s.modules.Keys
    && forall m :: m in s.modules ==> s.modules[m] == NEW_MODULE && s.sent[m] == [] && s.handled[m] == 0
  }

  /** No ready message is handled before the manager has registered all modules it waits for. */
  predicate AfterRegistration(s: State, step: Step) {
    step.ManagerTakes? ==> Registered(s)
  }

  function Run(s: State, steps: seq<Step>): Option<State>
    decreases |steps|
  {
    if steps == [] then Some(s)
    else if !Enabled(s, steps[0]) || !AfterRegistration(s, steps[0]) then None
    else Run(Apply(s, steps[0]), steps[1..])
  }

  // ---- Invariant ----

  predicate Signalled(s: State, m: string) {
    m in s.sent && true in s.sent[m]
  }

  predicate EverySignalled(s: State) {
    forall m :: m in s.waited ==> Signalled(s, m)
  }

  predicate KeysInv(s: State) {
    s.table.Keys <= s.waited <= s.modules.Keys && s.sent.Keys == s.modules.Keys && s.handled.Keys == s.modules.Keys
  }

  /** A module signals after its handler is set; its flag is the last signal handled. */
  predicate FlagInv(s: State, m: string) {
    && m in s.modules && m in s.sent && m in s.handled
    && s.handled[m] <= |s.sent[m]|
    && (s.sent[m] != [] ==> s.modules[m].connected && s.modules[m].onReady)
    && (m in s.table && s.handled[m] == 0 ==> !s.table[m])
    && (m in s.table && s.handled[m] > 0 ==> s.table[m] == s.sent[m][s.handled[m] - 1])
    && (m !in s.table ==> s.handled[m] == 0)
  }

  predicate TableInv(s: State) {
    && KeysInv(s)
    && forall m {:trigger FlagInv(s, m)} :: m in s.modules ==> FlagInv(s, m)
  }

  /** A module that got, or will get, the global ready is in a system where all have signalled. */
  predicate ModuleInv(s: State, m: string)
    requires m in s.modules
  {
    var module' := s.modules[m];
    && (s.globals == 0 ==> !module'.received && Bool(true) !in module'.inbox)
    && module'.ran <= 1 && (!module'.received ==> module'.ran == 0)
    && (!module'.connected ==> !module'.received && Bool(true) !in module'.inbox)
    && (m in s.waited && module'.received ==> module'.ran == 1)
    && (m in s.waited && s.globals > 0 ==> module'.received || Bool(true) in module'.inbox)
  }

  predicate Inv(s: State) {
    && TableInv(s)
    && (s.globals > 0 ==> EverySignalled(s))
    && forall m {:trigger ModuleInv(s, m)} :: m in s.modules ==> ModuleInv(s, m)
  }

  lemma InitInv(s: State)
    requires Init(s)
    ensures Inv(s)
  {
  }

  lemma StepPreservesFlag(s: State, step: Step, m: string)
    requires KeysInv(s) && FlagInv(s, m) && Enabled(s, step)
    ensures FlagInv(Apply(s, step), m)
  {
  }

  lemma StepPreservesKeys(s: State, step: Step)
    requires TableInv(s) && Enabled(s, step)
    ensures KeysInv(Apply(s, step)) && Apply(s, step).modules.Keys == s.modules.Keys
  {
  }

  lemma StepPreservesTable(s: State, step: Step)
    requires TableInv(s) && Enabled(s, step)
    ensures TableInv(Apply(s, step))
  {
    StepPreservesKeys(s, step);
    forall m | m in Apply(s, step).modules
      ensures FlagInv(Apply(s, step), m)
    {
      assert FlagInv(s, m);
      StepPreservesFlag(s, step, m);
    }
  }

  /** The step sets the last flag of the table so far. */
  predicate CompletesTable(s: State, m: string)
    requires Enabled(s, ManagerTakes(m))
  {
    s.sent[m][s.handled[m]] && forall k :: k in s.table && k != m ==> s.table[k]
  }

  /**
   * Exactly when handling a signal publishes the global ready too early: it completes the table,
   * and some module that is waited for is neither registered nor has it signalled.
   */
  lemma PublishesTooEarlyIff(s: State, m: string)
    requires TableInv(s) && Enabled(s, ManagerTakes(m))
    ensures var s' := Apply(s, ManagerTakes(m));
            s'.globals > s.globals && !EverySignalled(s') <==>
            CompletesTable(s, m) && exists w :: w in s.waited && w !in s.table && !Signalled(s, w)
  {
    var s' := Apply(s, ManagerTakes(m));
    StepPreservesTable(s, ManagerTakes(m));
    assert s'.globals > s.globals <==> CompletesTable(s, m) by {
      assert s'.table[m] == s.sent[m][s.handled[m]];
      assert forall k :: k in s.table && k != m ==> s'.table[k] == s.table[k];
    }
    assert forall w :: Signalled(s', w) <==> Signalled(s, w);
    forall w | CompletesTable(s, m) && w in s.table
      ensures Signalled(s', w)
    {
      assert FlagInv(s', w) && s'.table[w];
    }
  }

  /** If the step publishes the global ready, every module still to be registered has signalled. */
  predicate NotTooEarly(s: State, step: Step)
    requires Enabled(s, step)
  {
    step.ManagerTakes? && CompletesTable(s, step.m) ==> forall w :: w in s.waited && w !in s.table ==> Signalled(s, w)
  }

  lemma SignalledStays(s: State, step: Step, m: string)
    requires Enabled(s, step) && Signalled(s, m)
    ensures Signalled(Apply(s, step), m)
  {
    if step.Signal? && step.m == m {
      assert true in s.sent[m] + [step.ready];
    }
  }

  lemma StepPreservesSignalled(s: State, step: Step)
    requires Inv(s) && Enabled(s, step) && NotTooEarly(s, step)
    ensures Apply(s, step).globals > 0 ==> EverySignalled(Apply(s, step))
  {
    var s' := Apply(s, step);
    StepPreservesTable(s, step);
    if s'.globals > s.globals {
      PublishesTooEarlyIff(s, step.m);
    } else if s.globals > 0 {
      forall m | m in s'.waited
        ensures Signalled(s', m)
      {
        SignalledStays(s, step, m);
      }
    }
  }

  lemma StepPreservesModule(s: State, step: Step, m: string)
    requires Inv(s) && Enabled(s, step) && NotTooEarly(s, step) && m in s.modules
    ensures m in Apply(s, step).modules && ModuleInv(Apply(s, step), m)
  {
    assert ModuleInv(s, m);
    var s' := Apply(s, step);
    if s'.globals > s.globals {
      StepPreservesTable(s, step);
      PublishesTooEarlyIff(s, step.m);
      if m in s.waited {
        assert Signalled(s', m) && FlagInv(s, m);
        assert s'.modules[m].inbox[|s.modules[m].inbox|] == Bool(true);
      }
    } else if step.ModuleTakes? && step.m == m {
      var inbox := s.modules[m].inbox;
      assert inbox == [inbox[0]] + inbox[1..];
      if inbox[0] == Bool(true) && m in s.waited {
        assert Signalled(s, m) && FlagInv(s, m);
      }
    } else if step.Stray? && step.m == m {
      assert forall d :: d in s'.modules[m].inbox <==> d in s.modules[m].inbox || d == step.data;
    }
  }

  lemma StepPreservesInv(s: State, step: Step)
    requires Inv(s) && Enabled(s, step) && NotTooEarly(s, step)
    ensures Inv(Apply(s, step))
  {
    StepPreservesTable(s, step);
    StepPreservesSignalled(s, step);
    forall m | m in Apply(s, step).modules
      ensures ModuleInv(Apply(s, step), m)
    {
      StepPreservesModule(s, step, m);
    }
  }

  lemma {:induction false} RunPreservesInv(s: State, steps: seq<Step>)
    requires Inv(s) && Run(s, steps).Some?
    ensures Inv(Run(s, steps).value)
    decreases |steps|
  {
    if steps != [] {
      StepPreservesInv(s, steps[0]);
      RunPreservesInv(Apply(s, steps[0]), steps[1..]);
    }
  }

  /**
   * Over every run: no module's ready handler runs before every waited module has signalled true;
   * it runs at most once, however often the global ready comes; and in a waited module it is set
   * when the first one comes, so that it does run.
   */
  lemma BarrierHolds(s0: State, steps: seq<Step>, m: string)
    requires Init(s0) && Run(s0, steps).Some? && m in Run(s0, steps).value.modules
    ensures var s := Run(s0, steps).value;
            && (s.modules[m].ran > 0 ==> EverySignalled(s))
            && s.modules[m].ran <= 1
            && (m in s.waited ==> (s.modules[m].ran == 1 <==> s.modules[m].received))
            && (!s.modules[m].connected ==> s.modules[m].ran == 0 && Bool(true) !in s.modules[m].inbox)
  {
    InitInv(s0);
    RunPreservesInv(s0, steps);
    assert ModuleInv(Run(s0, steps).value, m);
  }

  /** Once the global ready is out and a waited module has taken all its messages, its handler has run. */
  lemma EveryWaitedModuleRuns(s0: State, steps: seq<Step>, m: string)
    requires Init(s0) && Run(s0, steps).Some?
    requires var s := Run(s0, steps).value;
             s.globals > 0 && m in s.waited && m in s.modules && s.modules[m].inbox == []
    ensures Run(s0, steps).value.modules[m].ran == 1
  {
    InitInv(s0);
    RunPreservesInv(s0, steps);
    assert ModuleInv(Run(s0, steps).value, m);
  }

  // ---- One global ready ----

  /** Every waited module signals at most once, and then true. */
  predicate SignalsOnce(s: State) {
    forall m :: m in s.waited && m in s.sent ==> s.sent[m] <= [true]
  }

  /** The global ready is published exactly when the last signal is handled. */
  predicate OneGlobalInv(s: State) {
    SignalsOnce(s) ==> s.globals == if s.table.Keys == s.waited && s.waited != {} && AllReady(s.table) then 1 else 0
  }

  lemma StepPreservesOneGlobal(s: State, step: Step)
    requires Inv(s) && OneGlobalInv(s) && Enabled(s, step) && AfterRegistration(s, step)
    ensures OneGlobalInv(Apply(s, step))
  {
    var s' := Apply(s, step);
    if SignalsOnce(s') {
      forall m | m in s.waited && m in s.sent
        ensures s.sent[m] <= [true]
      {
        assert s'.sent[m] <= [true];
      }
      if step.ManagerTakes? {
        assert s.sent[step.m] <= [true] && FlagInv(s, step.m);
        assert !s.table[step.m];
      } else if step.AddModule? {
        assert !s'.table[step.m];
        assert s.table.Keys != s.waited;
      }
    }
  }

  lemma {:induction false} RunPreservesOneGlobal(s: State, steps: seq<Step>)
    requires Inv(s) && OneGlobalInv(s) && Run(s, steps).Some?
    ensures OneGlobalInv(Run(s, steps).value)
    decreases |steps|
  {
    if steps != [] {
      StepPreservesInv(s, steps[0]);
      StepPreservesOneGlobal(s, steps[0]);
      RunPreservesOneGlobal(Apply(s, steps[0]), steps[1..]);
    }
  }

  predicate AllHandled(s: State) {
    && s.table.Keys == s.waited
    && forall m :: m in s.waited && m in s.sent && m in s.handled ==> s.handled[m] == |s.sent[m]|
  }

  /**
   * If every waited module signals true once and nothing else, at most one global ready is ever
   * published, and exactly one when all signals are sent and handled.
   */
  lemma ExactlyOneGlobalReady(s0: State, steps: seq<Step>)
    requires Init(s0) && s0.waited != {} && Run(s0, steps).Some? && SignalsOnce(Run(s0, steps).value)
    ensures var s := Run(s0, steps).value;
            && s.globals <= 1
            && (AllHandled(s) && EverySignalled(s) ==> s.globals == 1)
  {
    InitInv(s0);
    assert OneGlobalInv(s0);
    RunPreservesInv(s0, steps);
    RunPreservesOneGlobal(s0, steps);
    var s := Run(s0, steps).value;
    WaitedStays(s0, steps);
    if AllHandled(s) && EverySignalled(s) {
      forall m | m in s.table
        ensures s.table[m]
      {
        assert s.sent[m] <= [true] && true in s.sent[m] && FlagInv(s, m);
      }
    }
  }

  lemma {:induction false} WaitedStays(s: State, steps: seq<Step>)
    requires Run(s, steps).Some?
    ensures Run(s, steps).value.waited == s.waited
    decreases |steps|
  {
    if steps != [] {
      WaitedStays(Apply(s, steps[0]), steps[1..]);
    }
  }

  // ---- Signals handled during registration ----

  /** Registering the first of the modules that are left. */
  lemma AddIsNext(s: State, steps: seq<Step>, table: map<string, bool>, id: string)
    requires FreeRun(s, steps) == Some(s.(table := table)) && First(s.waited - table.Keys, id)
    ensures FreeRun(s, steps + [AddModule(id)]) == Some(s.(table := table[id := false]))
  {
    var at := s.(table := table);
    FreeRunConcat(s, steps, [AddModule(id)]);
    assert FreeRun(Apply(at, AddModule(id)), []) == Some(Apply(at, AddModule(id)));
  }

  /** Runs in which the manager may handle signals at any time. */
  function FreeRun(s: State, steps: seq<Step>): Option<State>
    decreases |steps|
  {
    if steps == [] then Some(s)
    else if !Enabled(s, steps[0]) then None
    else FreeRun(Apply(s, steps[0]), steps[1..])
  }

  predicate NeverTooEarly(s: State, steps: seq<Step>)
    requires FreeRun(s, steps).Some?
    decreases |steps|
  {
    steps == [] || (NotTooEarly(s, steps[0]) && NeverTooEarly(Apply(s, steps[0]), steps[1..]))
  }

  /** The global ready is out only if every module that is waited for has signalled. */
  predicate Timely(s: State) {
    s.globals > 0 ==> EverySignalled(s)
  }

  /** After every step of the run. */
  ghost predicate AlwaysTimely(s: State, steps: seq<Step>) {
    forall n :: 0 <= n <= |steps| && FreeRun(s, steps[..n]).Some? ==> Timely(FreeRun(s, steps[..n]).value)
  }

  lemma {:induction false} FreeRunPreservesInv(s: State, steps: seq<Step>)
    requires Inv(s) && FreeRun(s, steps).Some? && NeverTooEarly(s, steps)
    ensures Inv(FreeRun(s, steps).value)
    decreases |steps|
  {
    if steps != [] {
      StepPreservesInv(s, steps[0]);
      FreeRunPreservesInv(Apply(s, steps[0]), steps[1..]);
    }
  }

  lemma {:induction false} PrefixNeverTooEarly(s: State, steps: seq<Step>, n: nat)
    requires FreeRun(s, steps).Some? && NeverTooEarly(s, steps) && n <= |steps|
    ensures FreeRun(s, steps[..n]).Some? && NeverTooEarly(s, steps[..n])
    decreases |steps|
  {
    if n > 0 {
      assert steps[..n][1..] == steps[1..][..n - 1];
      PrefixNeverTooEarly(Apply(s, steps[0]), steps[1..], n - 1);
    }
  }

  lemma TailTimely(s: State, steps: seq<Step>)
    requires steps != [] && Enabled(s, steps[0]) && AlwaysTimely(s, steps)
    ensures AlwaysTimely(Apply(s, steps[0]), steps[1..])
  {
    forall n | 0 <= n <= |steps[1..]| && FreeRun(Apply(s, steps[0]), steps[1..][..n]).Some?
      ensures Timely(FreeRun(Apply(s, steps[0]), steps[1..][..n]).value)
    {
      assert steps[..n + 1][1..] == steps[1..][..n];
      assert FreeRun(s, steps[..n + 1]) == FreeRun(Apply(s, steps[0]), steps[1..][..n]);
    }
  }

  lemma {:induction false} TimelyIsNeverTooEarly(s: State, steps: seq<Step>)
    requires Inv(s) && FreeRun(s, steps).Some? && AlwaysTimely(s, steps)
    ensures NeverTooEarly(s, steps)
    decreases |steps|
  {
    if steps != [] {
      var s' := Apply(s, steps[0]);
      assert FreeRun(s, steps[..1]) == FreeRun(s', steps[..1][1..]);
      assert Timely(s');
      if steps[0].ManagerTakes? {
        PublishesTooEarlyIff(s, steps[0].m);
      }
      StepPreservesInv(s, steps[0]);
      TailTimely(s, steps);
      TimelyIsNeverTooEarly(s', steps[1..]);
    }
  }

  /**
   * Over every run, registration finished or not: the global ready never comes too early if and
   * only if each signal that completes the table is handled when all modules still to be
   * registered have signalled; and then the ready handlers keep the barrier.
   */
  lemma BarrierHoldsIff(s0: State, steps: seq<Step>)
    requires Init(s0) && FreeRun(s0, steps).Some?
    ensures AlwaysTimely(s0, steps) <==> NeverTooEarly(s0, steps)
    ensures NeverTooEarly(s0, steps) ==> !Broken(FreeRun(s0, steps).value)
  {
    InitInv(s0);
    if NeverTooEarly(s0, steps) {
      forall n | 0 <= n <= |steps|
        ensures FreeRun(s0, steps[..n]).Some? && Inv(FreeRun(s0, steps[..n]).value)
      {
        PrefixNeverTooEarly(s0, steps, n);
        FreeRunPreservesInv(s0, steps[..n]);
      }
      assert steps[..|steps|] == steps;
      var s := FreeRun(s0, steps).value;
      forall m | m in s.modules && s.modules[m].ran > 0
        ensures EverySignalled(s)
      {
        assert ModuleInv(s, m);
      }
    }
    if AlwaysTimely(s0, steps) {
      TimelyIsNeverTooEarly(s0, steps);
    }
  }

  /** A ready handler has run though a module that is waited for has not signalled. */
  predicate Broken(s: State) {
    (exists m :: m in s.modules && s.modules[m].ran > 0) && !EverySignalled(s)
  }

  ghost predicate CanBreak(s0: State) {
    exists steps :: FreeRun(s0, steps).Some? && Broken(FreeRun(s0, steps).value)
  }

  /** Handled while the table is still being filled, one signal makes its module's handler run. */
  function EarlySignal(a: string): seq<Step> {
    [AddModule(a), Connect(a), RegisterOnReady(a), Signal(a, true), ManagerTakes(a), ModuleTakes(a)]
  }

  /** Only module `a` is registered; it has signalled, and the signal is not handled yet. */
  predicate OnlyOneStarted(s: State, a: string) {
    && a in s.modules && s.modules[a] == Module(true, true, false, 0, [])
    && s.table == map[a := false]
    && s.sent.Keys == s.handled.Keys == s.modules.Keys
    && s.sent[a] == [true] && s.handled[a] == 0
    && forall m :: m in s.sent && m != a ==> s.sent[m] == []
  }

  lemma StartOnlyOne(s0: State, a: string)
    requires Init(s0) && First(s0.waited, a) && a in s0.standalone
    ensures var s1 := FreeRun(s0, EarlySignal(a)[..4]);
            && s1.Some? && OnlyOneStarted(s1.value, a)
            && s1.value.waited == s0.waited
  {
    assert s0.waited - s0.table.Keys == s0.waited;
    var s1 := Apply(s0, AddModule(a));
    var s2 := Apply(s1, Connect(a));
    var s3 := Apply(s2, RegisterOnReady(a));
    var s4 := Apply(s3, Signal(a, true));
    assert EarlySignal(a)[..4] == [AddModule(a), Connect(a), RegisterOnReady(a), Signal(a, true)];
    assert FreeRun(s3, [Signal(a, true)]) == FreeRun(s4, []);
    assert [RegisterOnReady(a), Signal(a, true)][1..] == [Signal(a, true)];
    assert FreeRun(s2, [RegisterOnReady(a), Signal(a, true)]) == FreeRun(s3, [Signal(a, true)]);
    assert [Connect(a), RegisterOnReady(a), Signal(a, true)][1..] == [RegisterOnReady(a), Signal(a, true)];
    assert FreeRun(s1, [Connect(a), RegisterOnReady(a), Signal(a, true)]) ==
           FreeRun(s2, [RegisterOnReady(a), Signal(a, true)]);
  }

  lemma OnlyOneBreaks(s: State, a: string, b: string)
    requires OnlyOneStarted(s, a) && b in s.waited && a != b
    ensures var s' := FreeRun(s, [ManagerTakes(a), ModuleTakes(a)]); s'.Some? && Broken(s'.value)
  {
    var s1 := Apply(s, ManagerTakes(a));
    assert s1.table == map[a := true];
    assert s1.modules[a].inbox == [Bool(true)];
    var s2 := Apply(s1, ModuleTakes(a));
    assert s2.modules[a].ran == 1;
    assert !Signalled(s2, b);
    assert FreeRun(s1, [ModuleTakes(a)]) == FreeRun(s2, []);
    assert [ManagerTakes(a), ModuleTakes(a)][1..] == [ModuleTakes(a)];
  }

  lemma {:induction false} FreeRunConcat(s: State, steps: seq<Step>, more: seq<Step>)
    requires FreeRun(s, steps).Some?
    ensures FreeRun(s, steps + more) == FreeRun(FreeRun(s, steps).value, more)
    decreases |steps|
  {
    if steps == [] {
      assert steps + more == more;
    } else {
      assert (steps + more)[1..] == steps[1..] + more;
      FreeRunConcat(Apply(s, steps[0]), steps[1..], more);
    }
  }

  /** A standalone module that is registered first and signals at once breaks the barrier, if there is another. */
  lemma EarlySignalBreaksBarrier(s0: State, a: string, b: string)
    requires Init(s0) && First(s0.waited, a) && a in s0.standalone && b in s0.waited && a != b
    ensures var run := FreeRun(s0, EarlySignal(a)); run.Some? && Broken(run.value)
  {
    StartOnlyOne(s0, a);
    OnlyOneBreaks(FreeRun(s0, EarlySignal(a)[..4]).value, a, b);
    FreeRunConcat(s0, EarlySignal(a)[..4], [ManagerTakes(a), ModuleTakes(a)]);
    assert EarlySignal(a) == EarlySignal(a)[..4] + [ManagerTakes(a), ModuleTakes(a)];
  }

  // ---- Who can signal early ----

  /** The first module is in the table before any other, and the manager spawns it when the table is full. */
  predicate FirstInv(s: State, a: string) {
    && First(s.waited, a) && a in s.modules
    && (s.table != map[] ==> a in s.table)
    && (a !in s.standalone && !Registered(s) ==> !s.modules[a].connected)
  }

  lemma FirstIsUnique(ids: set<string>, a: string, b: string)
    requires First(ids, a) && First(ids, b)
    ensures a == b
  {
    if a != b {
      LessAsymmetric(a, b);
    }
  }

  lemma StepPreservesFirst(s: State, step: Step, a: string)
    requires TableInv(s) && FirstInv(s, a) && Enabled(s, step)
    ensures FirstInv(Apply(s, step), a)
  {
    StepPreservesTable(s, step);
    if step.AddModule? && s.table == map[] {
      FirstIsUnique(s.waited - s.table.Keys, a, step.m);
    }
  }

  /** Unless the first module is standalone and not alone, no signal is handled too early. */
  lemma FirstIsNotTooEarly(s: State, step: Step, a: string)
    requires TableInv(s) && FirstInv(s, a) && Enabled(s, step)
    requires a !in s.standalone || forall b :: b in s.waited ==> b == a
    ensures NotTooEarly(s, step)
  {
    assert FlagInv(s, a);
    if step.ManagerTakes? && !Registered(s) {
      assert a in s.table;
      assert s.table.Keys <= s.waited;
    }
  }

  lemma {:induction false} FirstNeverTooEarly(s: State, steps: seq<Step>, a: string)
    requires TableInv(s) && FirstInv(s, a) && FreeRun(s, steps).Some?
    requires a !in s.standalone || forall b :: b in s.waited ==> b == a
    ensures NeverTooEarly(s, steps)
    decreases |steps|
  {
    if steps != [] {
      FirstIsNotTooEarly(s, steps[0], a);
      StepPreservesTable(s, steps[0]);
      StepPreservesFirst(s, steps[0], a);
      FirstNeverTooEarly(Apply(s, steps[0]), steps[1..], a);
    }
  }

  lemma {:induction false} HasFirst(ids: set<string>) returns (a: string)
    requires ids != {}
    ensures First(ids, a)
    decreases ids
  {
    var c :| c in ids;
    a := c;
    var rest := ids - {c};
    assert forall k :: k in ids ==> k == c || k in rest;
    if rest != {} {
      var b := HasFirst(rest);
      LessTotal(c, b);
      if Less(b, c) {
        a := b;
      } else {
        forall k | k in rest && k != b
          ensures Less(c, k)
        {
          LessTransitive(c, b, k);
        }
      }
    }
  }

  lemma {:induction false} FreeRunKeepsWaited(s: State, steps: seq<Step>)
    requires FreeRun(s, steps).Some?
    ensures FreeRun(s, steps).value.waited == s.waited
    decreases |steps|
  {
    if steps != [] {
      FreeRunKeepsWaited(Apply(s, steps[0]), steps[1..]);
    }
  }

  /**
   * Signals handled during registration can break the barrier exactly if the module that is
   * registered first is standalone and another one is waited for: the others find a flag that is
   * not set, and modules that the manager spawns come too late.
   */
  lemma CanBreakIff(s0: State)
    requires Init(s0)
    ensures CanBreak(s0) <==>
            exists a, b :: First(s0.waited, a) && a in s0.standalone && b in s0.waited && b != a
  {
    if a, b :| First(s0.waited, a) && a in s0.standalone && b in s0.waited && b != a {
      EarlySignalBreaksBarrier(s0, a, b);
    } else if CanBreak(s0) {
      var steps :| FreeRun(s0, steps).Some? && Broken(FreeRun(s0, steps).value);
      FreeRunKeepsWaited(s0, steps);
      assert s0.waited != {};
      var a := HasFirst(s0.waited);
      InitInv(s0);
      FirstNeverTooEarly(s0, steps, a);
      BarrierHoldsIff(s0, steps);
    }
  }
}
