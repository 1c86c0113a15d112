/**
 * Raising and clearing errors: `ErrorManager`, which clears what a request selects, and
 * `ErrorCommBridge`, which takes errors and requests from their topics and announces what was
 * cleared. Errors come in on threads of their own while the request thread is still sending.
 */
module ErrorBridge {
  import opened Wrappers
  import opened Json
  import opened Strings
  import opened ErrorDatabase

  datatype ClearOption = ClearUuid | ClearAllOfTypeOfModule | ClearAllOfModule

  function OptionToString(o: ClearOption): string {
    match o
    case ClearUuid => "ClearUUID"
    case ClearAllOfTypeOfModule => "ClearAllOfTypeOfModule"
    case ClearAllOfModule => "ClearAllOfModule"
  }

  function StringToOption(s: string): Option<ClearOption> {
    if s == "ClearUUID" then Some(ClearUuid)
    else if s == "ClearAllOfTypeOfModule" then Some(ClearAllOfTypeOfModule)
    else if s == "ClearAllOfModule" then Some(ClearAllOfModule)
    else None
  }

  lemma OptionRoundTrip(o: ClearOption)
    ensures StringToOption(OptionToString(o)) == Some(o)
  {
    assert |"ClearUUID"| == 9 && |"ClearAllOfTypeOfModule"| == 22 && |"ClearAllOfModule"| == 16;
  }

  // ---- The manager ----

  /** The argument rules of `clear_errors`: exactly the argument that the option speaks of. */
  predicate ArgumentsOk(o: ClearOption, handle: Option<string>, kind: Option<string>) {
    match o
    case ClearUuid => handle.Some? && kind.None?
    case ClearAllOfTypeOfModule => handle.None? && kind.Some?
    case ClearAllOfModule => handle.None? && kind.None?
  }

  /** The errors that a request is about. */
  predicate Selects(o: ClearOption, origin: Impl, handle: Option<string>, kind: Option<string>, e: Error) {
    && e.from == origin
    && (o.ClearUuid? ==> handle == Some(e.uuid))
    && (o.ClearAllOfTypeOfModule? ==> kind == Some(e.kind))
  }

  ghost predicate ClearSelection(list: seq<Error>, errors: map<string, Error>,
                                 o: ClearOption, origin: Impl, handle: Option<string>, kind: Option<string>) {
    && InKeyOrder(list)
    && forall e :: e in list <==> Stored(errors, e) && Selects(o, origin, handle, kind, e)
  }

  class ErrorManager {
    const database: ErrorDatabaseMap

    constructor (database: ErrorDatabaseMap)
      ensures this.database == database
    {
      this.database := database;
    }

    method RaiseError(e: Error) returns (r: Result<(), Failure>)
      requires database.Valid()
      modifies database
      ensures database.Valid()
      ensures r == if e.uuid in old(database.errors) then Err(AlreadyExists) else Ok(())
      ensures database.errors ==
              if e.uuid in old(database.errors) then old(database.errors)
              else old(database.errors)[e.uuid := e]
    {
      r := database.AddError(e);
    }

    /** `clear_errors`. */
    method ClearErrors(o: ClearOption, origin: Impl, handle: Option<string>, kind: Option<string>)
      returns (r: Result<seq<Error>, Failure>)
      requires database.Valid()
      modifies database
      ensures database.Valid()
      ensures r.Ok? <==> ArgumentsOk(o, handle, kind)
      ensures r.Ok? <==> (handle.Some? <==> o.ClearUuid?) && (kind.Some? <==> o.ClearAllOfTypeOfModule?)
      ensures r.Err? ==> r.error == BadArgument && database.errors == old(database.errors)
      ensures r.Ok? ==> ClearSelection(r.value, old(database.errors), o, origin, handle, kind)
      ensures r.Ok? ==> database.errors == old(database.errors) - Uuids(r.value)
    {
      var filters := [OriginFilter(origin)];
      match o {
        case ClearUuid =>
          if handle.None? || kind.Some? {
            return Err(BadArgument);
          }
          filters := filters + [HandleFilter(handle.value)];
        case ClearAllOfTypeOfModule =>
          if kind.None? || handle.Some? {
            return Err(BadArgument);
          }
          filters := filters + [TypeFilter(kind.value)];
        case ClearAllOfModule =>
          if kind.Some? || handle.Some? {
            return Err(BadArgument);
          }
      }
      forall e
        ensures PassesAll(filters, e) <==> Selects(o, origin, handle, kind, e)
      {
        FiltersSelect(o, origin, handle, kind, filters, e);
      }
      r := database.RemoveErrors(filters);
    }
  }

  lemma FiltersSelect(o: ClearOption, origin: Impl, handle: Option<string>, kind: Option<string>,
                      filters: seq<Filter>, e: Error)
    requires ArgumentsOk(o, handle, kind)
    requires filters == [OriginFilter(origin)] + (if o.ClearUuid? then [HandleFilter(handle.value)]
                                                  else if o.ClearAllOfTypeOfModule? then [TypeFilter(kind.value)]
                                                  else [])
    ensures PassesAll(filters, e) <==> Selects(o, origin, handle, kind, e)
  {
    assert filters[0] in filters;
    if |filters| > 1 {
      assert filters[1] in filters;
    }
  }

  // ---- Requests ----

  /** The data of a request; `kind` is the text of its option. */
  datatype Request = Request(id: Json, origin: Impl, kind: string, errorId: Option<string>, errorType: Option<string>)

  /** What `request_clear_error` puts into a request, or its argument error. */
  function BuildRequest(o: ClearOption, origin: Impl, uuid: Option<string>, errorType: Option<string>, id: string)
    : Result<Request, Failure>
  {
    if origin.implementationId == "" then Err(BadArgument)
    else if o.ClearUuid? && uuid.None? then Err(BadArgument)
    else if o.ClearAllOfTypeOfModule? && errorType.None? then Err(BadArgument)
    else Ok(Request(Str(id), origin, OptionToString(o),
                    if o.ClearUuid? then uuid else None, if o.ClearAllOfTypeOfModule? then errorType else None))
  }

  /** No request that `request_clear_error` builds fails the argument rules of the manager. */
  lemma BuiltRequestsAreAccepted(o: ClearOption, origin: Impl, uuid: Option<string>, errorType: Option<string>,
                                 id: string)
    ensures var r := BuildRequest(o, origin, uuid, errorType, id);
            r.Ok? ==> && r.value.id == Str(id) && r.value.origin == origin
                      && StringToOption(r.value.kind) == Some(o)
                      && ArgumentsOk(o, r.value.errorId, r.value.errorType)
                      && (forall e :: Selects(o, origin, r.value.errorId, r.value.errorType, e) <==>
                            e.from == origin && (o.ClearUuid? ==> Some(e.uuid) == uuid)
                            && (o.ClearAllOfTypeOfModule? ==> Some(e.kind) == errorType))
    ensures BuildRequest(o, origin, uuid, errorType, id).Err? <==>
            || origin.implementationId == "" || (o.ClearUuid? && uuid.None?)
            || (o.ClearAllOfTypeOfModule? && errorType.None?)
  {
    OptionRoundTrip(o);
  }

  // ---- The bridge ----

  /** Messages of the bridge: an announcement on the error's own topic, or the result of a request. */
  datatype Sent =
    | Announcement(topic: string, error: Error)
    | Answer(topic: string, id: Json, success: bool)

  function ClearedTopic(e: Error): string {
    e.from.moduleId + "/" + e.from.implementationId + "/error-cleared/" + e.kind
  }

  /** The announced topic splits into module, implementation, a fixed part and the type's parts. */
  lemma ClearedTopicParts(e: Error)
    requires '/' !in e.from.moduleId && '/' !in e.from.implementationId
    ensures Split(ClearedTopic(e), '/') ==
            [e.from.moduleId, e.from.implementationId, "error-cleared"] + Split(e.kind, '/')
  {
    var m, i, k := e.from.moduleId, e.from.implementationId, e.kind;
    RegroupTopic(m, i, "error-cleared", k);
    FourParts(m, i, "error-cleared", k);
  }

  lemma RegroupTopic(m: string, i: string, fixed: string, k: string)
    requires fixed == "error-cleared"
    ensures m + "/" + i + "/error-cleared/" + k == m + ['/'] + (i + ['/'] + (fixed + ['/'] + k))
  {
    assert "/error-cleared/" == ['/'] + fixed + ['/'];
  }

  lemma FourParts(m: string, i: string, fixed: string, k: string)
    requires '/' !in m && '/' !in i && '/' !in fixed
    ensures Split(m + ['/'] + (i + ['/'] + (fixed + ['/'] + k)), '/') == [m, i, fixed] + Split(k, '/')
  {
    var rest := fixed + ['/'] + k;
    SplitFree(m, '/');
    SplitFree(i, '/');
    SplitFree(fixed, '/');
    SplitConcat(fixed, '/', k);
    SplitConcat(i, '/', rest);
    SplitConcat(m, '/', i + ['/'] + rest);
  }

  /** So it says whose error was cleared, and of which type. */
  lemma ClearedTopicDetermines(d: Error, e: Error)
    requires '/' !in d.from.moduleId && '/' !in d.from.implementationId
    requires '/' !in e.from.moduleId && '/' !in e.from.implementationId
    requires ClearedTopic(d) == ClearedTopic(e)
    ensures d.from == e.from && d.kind == e.kind
  {
    ClearedTopicParts(d);
    ClearedTopicParts(e);
    var s := Split(ClearedTopic(d), '/');
    assert s[0] == d.from.moduleId && s[1] == d.from.implementationId && s[3..] == Split(d.kind, '/');
    assert s[0] == e.from.moduleId && s[1] == e.from.implementationId && s[3..] == Split(e.kind, '/');
    JoinSplit(d.kind, '/');
    JoinSplit(e.kind, '/');
  }

  function Announcements(list: seq<Error>): seq<Sent> {
    seq(|list|, i requires 0 <= i < |list| => Announcement(ClearedTopic(list[i]), list[i]))
  }

  /** What handling a request sends, for the errors it cleared. */
  function Reply(topic: string, request: Request, cleared: seq<Error>): seq<Sent> {
    Announcements(cleared) + [Answer(topic, request.id, cleared != [])]
  }

  class ErrorCommBridge {
    const manager: ErrorManager
    const requestTopic: string
    var sent: seq<Sent>

    constructor (manager: ErrorManager, requestTopic: string)
      ensures this.manager == manager && this.requestTopic == requestTopic && sent == []
    {
      this.manager := manager;
      this.requestTopic := requestTopic;
      sent := [];
    }

    /** `handle_error`. */
    method HandleError(e: Error) returns (r: Result<(), Failure>)
      requires manager.database.Valid()
      modifies manager.database
      ensures manager.database.Valid()
      ensures r.Err? <==> e.uuid in old(manager.database.errors)
      ensures manager.database.errors ==
              if r.Err? then old(manager.database.errors) else old(manager.database.errors)[e.uuid := e]
    {
      r := manager.RaiseError(e);
    }

    /**
     * `handle_request_clear_error`, undisturbed. An unknown option ends it before anything is
     * done: `Err` is the exception, which leaves the handler thread. A request that the manager
     * rejects clears nothing.
     */
    method HandleRequestClearError(request: Request) returns (r: Result<seq<Error>, Failure>)
      requires manager.database.Valid()
      modifies this, manager.database
      ensures manager.database.Valid()
      ensures r.Err? <==> StringToOption(request.kind).None?
      ensures r.Err? ==> sent == old(sent) && manager.database.errors == old(manager.database.errors)
      ensures r.Ok? ==> Clears(old(manager.database.errors), request, r.value)
      ensures r.Ok? ==> manager.database.errors == old(manager.database.errors) - Uuids(r.value)
      ensures r.Ok? ==> sent == old(sent) + Reply(requestTopic, request, r.value)
      ensures r.Ok? ==>
                sent == old(sent) + Announcements(r.value) + [Answer(requestTopic, request.id, |r.value| > 0)]
    {
      var option := StringToOption(request.kind);
      if option.None? {
        return Err(UnknownOption);
      }
      var cleared := [];
      var outcome := manager.ClearErrors(option.value, request.origin, request.errorId, request.errorType);
      if outcome.Ok? {
        cleared := outcome.value;
      }
      assert Uuids([]) == {};
      var i := 0;
      while i < |cleared|
        invariant 0 <= i <= |cleared|
        invariant sent == old(sent) + Announcements(cleared[..i])
        modifies `sent
      {
        assert Announcements(cleared[..i + 1]) ==
               Announcements(cleared[..i]) + [Announcement(ClearedTopic(cleared[i]), cleared[i])];
        sent := sent + [Announcement(ClearedTopic(cleared[i]), cleared[i])];
        i := i + 1;
      }
      assert cleared[..i] == cleared;
      sent := sent + [Answer(requestTopic, request.id, cleared != [])];
      assert Announcements(cleared) + [Answer(requestTopic, request.id, |cleared| > 0)] ==
             Reply(requestTopic, request, cleared);
      r := Ok(cleared);
    }
  }

  /** A handled request clears what it selects, or nothing if its arguments break the rules. */
  ghost predicate Clears(errors: map<string, Error>, request: Request, cleared: seq<Error>) {
    && StringToOption(request.kind).Some?
    && var o := StringToOption(request.kind).value;
       if ArgumentsOk(o, request.errorId, request.errorType)
       then ClearSelection(cleared, errors, o, request.origin, request.errorId, request.errorType)
       else cleared == []
  }

  /** What each text of a request clears, if it comes with the argument of its option; else nothing. */
  lemma ClearsByText(errors: map<string, Error>, request: Request, cleared: seq<Error>)
    requires Clears(errors, request, cleared)
    ensures request.kind in {"ClearUUID", "ClearAllOfTypeOfModule", "ClearAllOfModule"}
    ensures forall e :: e in cleared <==>
              && e.uuid in errors && errors[e.uuid] == e && e.from == request.origin
              && (|| (request.kind == "ClearUUID" && request.errorType.None? && request.errorId == Some(e.uuid))
                  || (request.kind == "ClearAllOfTypeOfModule"
                      && request.errorId.None? && request.errorType == Some(e.kind))
                  || (request.kind == "ClearAllOfModule" && request.errorId.None? && request.errorType.None?))
  {
    TextsDiffer();
  }

  lemma TextsDiffer()
    ensures "ClearUUID" != "ClearAllOfTypeOfModule" && "ClearUUID" != "ClearAllOfModule"
    ensures "ClearAllOfTypeOfModule" != "ClearAllOfModule"
  {
    assert |"ClearUUID"| == 9 && |"ClearAllOfTypeOfModule"| == 22 && |"ClearAllOfModule"| == 16;
  }

  /** Exactly these texts are understood. */
  lemma UnderstoodTexts(s: string)
    ensures StringToOption(s).Some? <==> s in {"ClearUUID", "ClearAllOfTypeOfModule", "ClearAllOfModule"}
  {
  }

  // ---- Runs ----

  /** `pending` is what the request thread still has to send. The rest is history. */
  datatype State = State(
    errors: map<string, Error>,
    pending: seq<Sent>,
    sent: seq<Sent>,
    raised: seq<Error>,
    rejected: seq<Error>,
    cleared: seq<Error>,
    answered: seq<(Request, bool)>)

  const START := State(map[], [], [], [], [], [], [])

  /**
   * Errors are raised at any time; the request thread clears, then sends message by message. When
   * a raise is rejected the exception leaves the handler thread, which ends the process: the runs
   * here go on, so they include those that end there.
   */
  datatype Step =
    | Raise(e: Error)
    | Clear(request: Request, list: seq<Error>)
    | Send

  ghost predicate Enabled(s: State, step: Step) {
    match step
    case Raise(_) => true
    case Clear(request, list) => s.pending == [] && Clears(s.errors, request, list)
    case Send => s.pending != []
  }

  ghost function Apply(topic: string, s: State, step: Step): State
    requires Enabled(s, step)
  {
    match step
    case Raise(e) =>
      if e.uuid in s.errors then s.(rejected := s.rejected + [e])
      else s.(errors := s.errors[e.uuid := e], raised := s.raised + [e])
    case Clear(request, list) =>
      s.(errors := s.errors - Uuids(list), cleared := s.cleared + list, pending := Reply(topic, request, list),
         answered := s.answered + [(request, list != [])])
    case Send => s.(sent := s.sent + [s.pending[0]], pending := s.pending[1..])
  }

  ghost function Run(topic: string, s: State, steps: seq<Step>): Option<State>
    decreases |steps|
  {
    if steps == [] then Some(s)
    else if !Enabled(s, steps[0]) then None
    else Run(topic, Apply(topic, s, steps[0]), steps[1..])
  }

  function Sends(n: nat): seq<Step> {
    if n == 0 then [] else [Send] + Sends(n - 1)
  }

  /** The request thread left to itself sends its whole reply, as `HandleRequestClearError` does. */
  lemma {:induction false} SendsReply(topic: string, s: State, n: nat)
    requires n == |s.pending|
    ensures Run(topic, s, Sends(n)) == Some(s.(sent := s.sent + s.pending, pending := []))
    decreases n
  {
    if n == 0 {
      assert s.sent + s.pending == s.sent;
    } else {
      var s1 := Apply(topic, s, Send);
      SendsReply(topic, s1, n - 1);
      assert Sends(n)[1..] == Sends(n - 1);
      assert s.sent + [s.pending[0]] + s.pending[1..] == s.sent + s.pending;
    }
  }

  function AnnouncedIn(messages: seq<Sent>): seq<Sent> {
    if messages == [] then []
    else AnnouncedIn(messages[..|messages| - 1]) +
         (if messages[|messages| - 1].Announcement? then [messages[|messages| - 1]] else [])
  }

  function AnswersIn(messages: seq<Sent>): seq<Sent> {
    if messages == [] then []
    else AnswersIn(messages[..|messages| - 1]) +
         (if messages[|messages| - 1].Answer? then [messages[|messages| - 1]] else [])
  }

  function Answers(topic: string, answered: seq<(Request, bool)>): seq<Sent> {
    seq(|answered|, i requires 0 <= i < |answered| => Answer(topic, answered[i].0.id, answered[i].1))
  }

  lemma {:induction false} AnnouncedConcat(a: seq<Sent>, b: seq<Sent>)
    ensures AnnouncedIn(a + b) == AnnouncedIn(a) + AnnouncedIn(b)
    ensures AnswersIn(a + b) == AnswersIn(a) + AnswersIn(b)
    decreases |b|
  {
    if b == [] {
      assert a + b == a;
    } else {
      assert (a + b)[..|a + b| - 1] == a + b[..|b| - 1];
      AnnouncedConcat(a, b[..|b| - 1]);
    }
  }

  lemma {:induction false} AnnouncementsAnnounce(list: seq<Error>)
    ensures AnnouncedIn(Announcements(list)) == Announcements(list) && AnswersIn(Announcements(list)) == []
    decreases |list|
  {
    if list != [] {
      var n := |list| - 1;
      assert Announcements(list)[..n] == Announcements(list[..n]);
      AnnouncementsAnnounce(list[..n]);
      assert Announcements(list) == Announcements(list[..n]) + [Announcement(ClearedTopic(list[n]), list[n])];
    }
  }

  /** How often an error is active, as its own key. */
  function Active(errors: map<string, Error>, e: Error): nat {
    if Stored(errors, e) then 1 else 0
  }

  /** Every error taken was active, or cleared, as often as it was taken. */
  ghost predicate Conserved(s: State) {
    forall e :: multiset(s.raised)[e] == Active(s.errors, e) + multiset(s.cleared)[e]
  }

  /** Only an error with the uuid of one taken before was ever rejected. */
  predicate RejectedWereKnown(s: State) {
    forall e :: e in s.rejected ==> exists d :: d in s.raised && d.uuid == e.uuid
  }

  ghost predicate Inv(topic: string, s: State) {
    && KeyedByUuid(s.errors)
    && Conserved(s)
    && RejectedWereKnown(s)
    && AnnouncedIn(s.sent + s.pending) == Announcements(s.cleared)
    && AnswersIn(s.sent + s.pending) == Answers(topic, s.answered)
  }

  lemma CountSnoc(list: seq<Error>, e: Error, d: Error)
    ensures multiset(list + [e])[d] == multiset(list)[d] + (if d == e then 1 else 0)
  {
  }

  lemma RaiseConserves(topic: string, s: State, e: Error)
    requires Conserved(s)
    ensures Conserved(Apply(topic, s, Raise(e)))
  {
    var s' := Apply(topic, s, Raise(e));
    forall d
      ensures multiset(s'.raised)[d] == Active(s'.errors, d) + multiset(s'.cleared)[d]
    {
      if e.uuid !in s.errors {
        CountSnoc(s.raised, e, d);
      }
    }
  }

  /** An active error was taken. */
  lemma StoredWasRaised(s: State, uuid: string)
    requires KeyedByUuid(s.errors) && Conserved(s) && uuid in s.errors
    ensures s.errors[uuid] in s.raised && s.errors[uuid].uuid == uuid
  {
    assert Active(s.errors, s.errors[uuid]) == 1;
    assert s.errors[uuid] in multiset(s.raised);
  }

  lemma RaiseKeepsRejected(topic: string, s: State, e: Error)
    requires KeyedByUuid(s.errors) && Conserved(s) && RejectedWereKnown(s)
    ensures RejectedWereKnown(Apply(topic, s, Raise(e)))
  {
    var s' := Apply(topic, s, Raise(e));
    if e.uuid in s.errors {
      StoredWasRaised(s, e.uuid);
    }
    forall d | d in s'.rejected
      ensures exists r :: r in s'.raised && r.uuid == d.uuid
    {
      if d in s.rejected {
        var r :| r in s.raised && r.uuid == d.uuid;
        assert r in s'.raised;
      }
    }
  }

  /** In a list in key order every member counts once. */
  lemma {:induction false} CountInOrder(list: seq<Error>, e: Error)
    requires InKeyOrder(list)
    ensures multiset(list)[e] == if e in list then 1 else 0
    decreases |list|
  {
    if list != [] {
      var n := |list| - 1;
      assert list == list[..n] + [list[n]];
      CountInOrder(list[..n], e);
      CountSnoc(list[..n], list[n], e);
      if list[n] in list[..n] {
        var i :| 0 <= i < n && list[i] == list[n];
        LessAsymmetric(list[i].uuid, list[n].uuid);
      }
    }
  }

  lemma ClearedIsStored(errors: map<string, Error>, request: Request, list: seq<Error>)
    requires KeyedByUuid(errors) && Clears(errors, request, list)
    ensures InKeyOrder(list) && forall e :: e in list ==> Stored(errors, e) && e.from == request.origin
    ensures forall e :: Stored(errors, e) && e.from != request.origin ==> Stored(errors - Uuids(list), e)
    ensures forall e :: Active(errors, e) == Active(errors - Uuids(list), e) + multiset(list)[e]
  {
    forall e
      ensures Active(errors, e) == Active(errors - Uuids(list), e) + multiset(list)[e]
    {
      CountInOrder(list, e);
      if Stored(errors, e) && e.uuid in Uuids(list) {
        var d :| d in list && d.uuid == e.uuid;
      }
    }
  }

  lemma ClearConserves(topic: string, s: State, request: Request, list: seq<Error>)
    requires Inv(topic, s) && Enabled(s, Clear(request, list))
    ensures Conserved(Apply(topic, s, Clear(request, list)))
  {
    ClearedIsStored(s.errors, request, list);
    forall e
      ensures multiset(s.cleared + list)[e] == multiset(s.cleared)[e] + multiset(list)[e]
    {
    }
  }

  lemma AnnouncementsConcat(a: seq<Error>, b: seq<Error>)
    ensures Announcements(a + b) == Announcements(a) + Announcements(b)
  {
  }

  lemma AnswersSnoc(topic: string, answered: seq<(Request, bool)>, last: (Request, bool))
    ensures Answers(topic, answered + [last]) == Answers(topic, answered) + [Answer(topic, last.0.id, last.1)]
  {
  }

  /** A reply announces what was cleared, and answers once. */
  lemma ReplyParts(topic: string, request: Request, list: seq<Error>)
    ensures AnnouncedIn(Reply(topic, request, list)) == Announcements(list)
    ensures AnswersIn(Reply(topic, request, list)) == [Answer(topic, request.id, list != [])]
  {
    var answer := Answer(topic, request.id, list != []);
    AnnouncedConcat(Announcements(list), [answer]);
    AnnouncementsAnnounce(list);
    assert [answer][..0] == [];
  }

  lemma ClearAnnounces(topic: string, s: State, request: Request, list: seq<Error>)
    requires Inv(topic, s) && Enabled(s, Clear(request, list))
    ensures var s' := Apply(topic, s, Clear(request, list));
            && AnnouncedIn(s'.sent + s'.pending) == Announcements(s'.cleared)
            && AnswersIn(s'.sent + s'.pending) == Answers(topic, s'.answered)
  {
    assert s.sent + s.pending == s.sent;
    AnnouncedConcat(s.sent, Reply(topic, request, list));
    ReplyParts(topic, request, list);
    AnnouncementsConcat(s.cleared, list);
    AnswersSnoc(topic, s.answered, (request, list != []));
  }

  lemma StepPreservesInv(topic: string, s: State, step: Step)
    requires Inv(topic, s) && Enabled(s, step)
    ensures Inv(topic, Apply(topic, s, step))
  {
    match step
    case Raise(e) =>
      RaiseConserves(topic, s, e);
      RaiseKeepsRejected(topic, s, e);
    case Clear(request, list) =>
      ClearConserves(topic, s, request, list);
      ClearAnnounces(topic, s, request, list);
    case Send =>
      assert s.sent + [s.pending[0]] + s.pending[1..] == s.sent + s.pending;
  }

  lemma {:induction false} RunPreservesInv(topic: string, s: State, steps: seq<Step>)
    requires Inv(topic, s) && Run(topic, s, steps).Some?
    ensures Inv(topic, Run(topic, s, steps).value)
    decreases |steps|
  {
    if steps != [] {
      StepPreservesInv(topic, s, steps[0]);
      RunPreservesInv(topic, Apply(topic, s, steps[0]), steps[1..]);
    }
  }

  /**
   * Over every run: each error taken is active or cleared, as often as it was taken; what was or
   * will be announced are the cleared errors in order, each on the topic of its own origin; and
   * each handled request gets one result, with its id and success exactly if it cleared something.
   */
  lemma ErrorsAreConserved(topic: string, steps: seq<Step>)
    requires Run(topic, START, steps).Some?
    ensures var s := Run(topic, START, steps).value;
            && (forall e :: multiset(s.raised)[e] == Active(s.errors, e) + multiset(s.cleared)[e])
            && AnnouncedIn(s.sent) + AnnouncedIn(s.pending) == Announcements(s.cleared)
            && AnswersIn(s.sent) + AnswersIn(s.pending) == Answers(topic, s.answered)
  {
    RunPreservesInv(topic, START, steps);
    var s := Run(topic, START, steps).value;
    AnnouncedConcat(s.sent, s.pending);
  }

  predicate DistinctUuids(list: seq<Error>) {
    forall i, j :: 0 <= i < j < |list| ==> list[i].uuid != list[j].uuid
  }

  lemma {:induction false} DistinctCountOnce(list: seq<Error>, e: Error)
    requires DistinctUuids(list)
    ensures multiset(list)[e] == if e in list then 1 else 0
    decreases |list|
  {
    if list != [] {
      var n := |list| - 1;
      assert list == list[..n] + [list[n]];
      DistinctCountOnce(list[..n], e);
      CountSnoc(list[..n], list[n], e);
    }
  }

  /** With distinct uuids no error is rejected, and those raised are the active and the cleared ones, disjointly. */
  lemma DistinctErrorsSplit(topic: string, steps: seq<Step>)
    requires Run(topic, START, steps).Some?
    requires DistinctUuids(Run(topic, START, steps).value.raised + Run(topic, START, steps).value.rejected)
    ensures var s := Run(topic, START, steps).value;
            && s.rejected == []
            && (forall e :: e in s.raised <==> Stored(s.errors, e) || e in s.cleared)
            && (forall e :: !(Stored(s.errors, e) && e in s.cleared))
  {
    RunPreservesInv(topic, START, steps);
    var s := Run(topic, START, steps).value;
    RejectedBreaksDistinctness(s);
    assert s.raised + s.rejected == s.raised;
    forall e
      ensures e in s.raised <==> Stored(s.errors, e) || e in s.cleared
      ensures !(Stored(s.errors, e) && e in s.cleared)
    {
      DistinctCountOnce(s.raised, e);
      assert e in multiset(s.cleared) <==> e in s.cleared;
    }
  }

  lemma RejectedBreaksDistinctness(s: State)
    requires RejectedWereKnown(s)
    ensures s.rejected != [] ==> !DistinctUuids(s.raised + s.rejected)
  {
    if s.rejected != [] {
      assert s.rejected[0] in s.rejected;
      var d :| d in s.raised && d.uuid == s.rejected[0].uuid;
      var i :| 0 <= i < |s.raised| && s.raised[i] == d;
      assert (s.raised + s.rejected)[i].uuid == (s.raised + s.rejected)[|s.raised|].uuid;
    }
  }
}
