/** Reported errors, filters on them, and the database that keeps them by uuid. */
module ErrorDatabase {
  import opened Wrappers
  import opened Strings

  datatype Severity = Low | Medium | High

  datatype ErrorState = Active | ClearedByModule | ClearedByReboot

  datatype Impl = Impl(moduleId: string, implementationId: string)

  /** An error; `timestamp` counts the clock's ticks. */
  datatype Error = Error(
    kind: string,
    message: string,
    description: string,
    from: Impl,
    severity: Severity,
    timestamp: int,
    uuid: string,
    state: ErrorState)

  datatype SeverityFilter = LowGe | MediumGe | HighGe

  /** `ErrorFilter`; a default constructed one is not set. */
  datatype Filter =
    | Unset
    | StateFilter(state: ErrorState)
    | OriginFilter(origin: Impl)
    | TypeFilter(kind: string)
    | SeverityAtLeast(severity: SeverityFilter)
    | TimePeriod(start: int, end: int)
    | HandleFilter(uuid: string)

  datatype Failure = AlreadyExists | FilterNotSet | BadArgument | UnknownOption | MissingMember

  // ---- What filters mean ----

  function Rank(s: Severity): int {
    match s
    case Low => 0
    case Medium => 1
    case High => 2
  }

  function Threshold(s: SeverityFilter): Severity {
    match s
    case LowGe => Low
    case MediumGe => Medium
    case HighGe => High
  }

  /** A state filter is ignored. */
  predicate Passes(f: Filter, e: Error) {
    match f
    case Unset => false
    case StateFilter(_) => true
    case OriginFilter(origin) => e.from == origin
    case TypeFilter(kind) => e.kind == kind
    case SeverityAtLeast(severity) => Rank(Threshold(severity)) <= Rank(e.severity)
    case TimePeriod(start, end) => start <= e.timestamp <= end
    case HandleFilter(uuid) => e.uuid == uuid
  }

  predicate PassesAll(filters: seq<Filter>, e: Error) {
    forall f :: f in filters ==> Passes(f, e)
  }

  // ---- Selections ----

  predicate InKeyOrder(list: seq<Error>) {
    forall i, j :: 0 <= i < j < |list| ==> Less(list[i].uuid, list[j].uuid)
  }

  predicate Stored(errors: map<string, Error>, e: Error) {
    e.uuid in errors && errors[e.uuid] == e
  }

  /** Keys are the uuids of what they map to. */
  predicate KeyedByUuid(errors: map<string, Error>) {
    forall k :: k in errors ==> errors[k].uuid == k
  }

  /** The stored errors that pass all filters, each once, in key order. */
  ghost predicate IsSelection(list: seq<Error>, errors: map<string, Error>, filters: seq<Filter>) {
    && InKeyOrder(list)
    && forall e :: e in list <==> Stored(errors, e) && PassesAll(filters, e)
  }

  /** A list in key order is determined by its members. */
  lemma {:induction false} OrderedListsAreEqual(a: seq<Error>, b: seq<Error>)
    requires InKeyOrder(a) && InKeyOrder(b)
    requires forall e :: e in a <==> e in b
    ensures a == b
    decreases |a|
  {
    if a == [] {
      FirstIsMember(b);
    } else {
      assert a[0] in b;
      FirstIsLeast(a, b);
      TailMembers(a);
      TailMembers(b);
      OrderedListsAreEqual(a[1..], b[1..]);
      assert a == [a[0]] + a[1..] && b == [b[0]] + b[1..];
    }
  }

  lemma FirstIsMember(a: seq<Error>)
    ensures a != [] ==> a[0] in a
  {
  }

  lemma FirstIsLeast(a: seq<Error>, b: seq<Error>)
    requires InKeyOrder(a) && InKeyOrder(b) && a != [] && b != [] && a[0] in b && b[0] in a
    ensures a[0] == b[0]
  {
    if a[0] != b[0] {
      var i :| 0 <= i < |b| && b[i] == a[0];
      var j :| 0 <= j < |a| && a[j] == b[0];
      assert Less(b[0].uuid, b[i].uuid) && Less(a[0].uuid, a[j].uuid);
      LessAsymmetric(a[0].uuid, b[0].uuid);
    }
  }

  /** No error comes twice in key order. */
  lemma TailMembers(a: seq<Error>)
    requires InKeyOrder(a) && a != []
    ensures forall e :: e in a[1..] <==> e in a && e != a[0]
  {
    forall e | e in a[1..]
      ensures e != a[0]
    {
      var i :| 0 <= i < |a| - 1 && a[1..][i] == e;
      assert Less(a[0].uuid, a[i + 1].uuid);
      LessAsymmetric(a[0].uuid, a[i + 1].uuid);
    }
    forall e | e in a && e != a[0]
      ensures e in a[1..]
    {
      var i :| 0 <= i < |a| && a[i] == e;
      assert a[1..][i - 1] == e;
    }
  }

  /** There is one selection for a set of filters, whatever their order or repetition. */
  lemma SelectionIsUnique(errors: map<string, Error>, filters: seq<Filter>, filters': seq<Filter>,
                          list: seq<Error>, list': seq<Error>)
    requires forall f :: f in filters <==> f in filters'
    requires IsSelection(list, errors, filters) && IsSelection(list', errors, filters')
    ensures list == list'
  {
    forall e
      ensures PassesAll(filters, e) <==> PassesAll(filters', e)
    {
    }
    OrderedListsAreEqual(list, list');
  }

  /**
   * What each kind of filter keeps: an origin with both its ids, a type, a uuid; severities from
   * the threshold up; a period with both its ends; a state filter keeps everything.
   */
  lemma FilterKeeps(errors: map<string, Error>, list: seq<Error>, f: Filter)
    requires !f.Unset? && IsSelection(list, errors, [f])
    ensures forall e :: e in list <==>
              && e.uuid in errors && errors[e.uuid] == e
              && match f
                 case OriginFilter(Impl(moduleId, implementationId)) =>
                   e.from.moduleId == moduleId && e.from.implementationId == implementationId
                 case TypeFilter(kind) => e.kind == kind
                 case HandleFilter(uuid) => e.uuid == uuid
                 case SeverityAtLeast(LowGe) => e.severity in {Low, Medium, High}
                 case SeverityAtLeast(MediumGe) => e.severity in {Medium, High}
                 case SeverityAtLeast(HighGe) => e.severity in {High}
                 case TimePeriod(start, end) => !(e.timestamp < start) && !(end < e.timestamp)
                 case StateFilter(_) => true
                 case Unset => false
  {
    assert f in [f];
  }

  /** A handle selects at most one error. */
  lemma HandleSelectsAtMostOne(errors: map<string, Error>, filters: seq<Filter>, list: seq<Error>, uuid: string)
    requires IsSelection(list, errors, filters) && HandleFilter(uuid) in filters
    ensures |list| <= 1
  {
    if |list| > 1 {
      assert list[0] in list && list[1] in list;
      assert Passes(HandleFilter(uuid), list[0]) && Passes(HandleFilter(uuid), list[1]);
      LessAsymmetric(list[0].uuid, list[1].uuid);
    }
  }

  function Uuids(list: seq<Error>): set<string> {
    set e | e in list :: e.uuid
  }

  /** Taking a selection out splits the stored errors into those selected and those kept. */
  lemma RemovalSplits(errors: map<string, Error>, filters: seq<Filter>, list: seq<Error>)
    requires KeyedByUuid(errors) && IsSelection(list, errors, filters)
    ensures KeyedByUuid(errors - Uuids(list))
    ensures forall e :: Stored(errors, e) <==> (e in list) != Stored(errors - Uuids(list), e)
    ensures forall e :: Stored(errors - Uuids(list), e) <==> Stored(errors, e) && !PassesAll(filters, e)
  {
    forall e | Stored(errors, e)
      ensures e.uuid in Uuids(list) <==> e in list
    {
      if e.uuid in Uuids(list) {
        var d :| d in list && d.uuid == e.uuid;
        assert Stored(errors, d);
      }
    }
  }

  // ---- The database ----

  /** `remove_if` with the predicate of one filter. */
  method RemoveUnlessPassing(list: seq<Error>, f: Filter) returns (kept: seq<Error>)
    requires InKeyOrder(list)
    ensures InKeyOrder(kept)
    ensures forall e :: e in kept <==> e in list && Passes(f, e)
  {
    kept := [];
    var i := 0;
    while i < |list|
      invariant 0 <= i <= |list|
      invariant forall e :: e in kept <==> e in list[..i] && Passes(f, e)
      invariant InKeyOrder(kept)
    {
      forall e | e in kept
        ensures Less(e.uuid, list[i].uuid)
      {
        var j :| 0 <= j < i && list[..i][j] == e;
      }
      assert list[..i + 1] == list[..i] + [list[i]];
      if Passes(f, list[i]) {
        kept := kept + [list[i]];
      }
      i := i + 1;
    }
    assert list[..i] == list;
  }

  class ErrorDatabaseMap {
    var errors: map<string, Error>

    ghost predicate Valid()
      reads this
    {
      KeyedByUuid(errors)
    }

    constructor ()
      ensures Valid() && errors == map[]
    {
      errors := map[];
    }

    /** `add_error`. */
    method AddError(e: Error) returns (r: Result<(), Failure>)
      requires Valid()
      modifies this
      ensures Valid()
      ensures r == if e.uuid in old(errors) then Err(AlreadyExists) else Ok(())
      ensures errors == if e.uuid in old(errors) then old(errors) else old(errors)[e.uuid := e]
    {
      if e.uuid in errors {
        return Err(AlreadyExists);
      }
      errors := errors[e.uuid := e];
      r := Ok(());
    }

    /** The copy of the map's values at the start of `get_errors_no_mutex`. */
    method Values() returns (list: seq<Error>)
      requires Valid()
      ensures IsSelection(list, errors, [])
    {
      list := [];
      var todo := errors.Keys;
      while todo != {}
        invariant todo <= errors.Keys
        invariant forall e :: e in list <==> Stored(errors, e) && e.uuid !in todo
        invariant InKeyOrder(list)
        invariant forall e, k :: e in list && k in todo ==> Less(e.uuid, k)
        decreases todo
      {
        var k := LeastKey(todo);
        list := list + [errors[k]];
        todo := todo - {k};
      }
    }

    /** `get_errors`. */
    method GetErrors(filters: seq<Filter>) returns (r: Result<seq<Error>, Failure>)
      requires Valid()
      ensures r.Err? <==> Unset in filters
      ensures r.Err? ==> r.error == FilterNotSet
      ensures r.Ok? ==> IsSelection(r.value, errors, filters)
    {
      var list := Values();
      var i := 0;
      while i < |filters|
        invariant 0 <= i <= |filters|
        invariant Unset !in filters[..i]
        invariant IsSelection(list, errors, filters[..i])
      {
        if filters[i].Unset? {
          return Err(FilterNotSet);
        }
        list := RemoveUnlessPassing(list, filters[i]);
        assert filters[..i + 1] == filters[..i] + [filters[i]];
        i := i + 1;
      }
      assert filters[..i] == filters;
      r := Ok(list);
    }

    /** `remove_errors`, which edits the selected errors by erasing them. */
    method RemoveErrors(filters: seq<Filter>) returns (r: Result<seq<Error>, Failure>)
      requires Valid()
      modifies this
      ensures Valid()
      ensures r.Err? <==> Unset in filters
      ensures r.Err? ==> r.error == FilterNotSet && errors == old(errors)
      ensures r.Ok? ==> IsSelection(r.value, old(errors), filters) && errors == old(errors) - Uuids(r.value)
    {
      r := GetErrors(filters);
      if r.Ok? {
        var list := r.value;
        var i := 0;
        while i < |list|
          invariant 0 <= i <= |list|
          invariant errors == old(errors) - Uuids(list[..i])
        {
          assert list[..i + 1] == list[..i] + [list[i]];
          assert Uuids(list[..i + 1]) == Uuids(list[..i]) + {list[i].uuid};
          errors := errors - {list[i].uuid};
          i := i + 1;
        }
        assert list[..i] == list;
      }
    }
  }
}
