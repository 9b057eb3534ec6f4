/**
 * The registry of tool calls in flight: a kill aborts the calls of a principal, a person or a tenant. Each of its
 * operations runs to the end before the next one, so a run is a sequence of events. An id is the counter value
 * in the text `if-<counter>`.
 */
module InFlight {
  import opened Common

  type Id = nat
  type Signal = nat

  /** An empty text is an absent key. */
  datatype Keys = Keys(principal: string, human: string, tenant: string)

  datatype Row = Row(id: Id, keys: Keys)

  const DEFAULT_CAP := 128
  const DEFAULT_PER_PRINCIPAL := 16

  datatype Limits = Limits(cap: nat, perPrincipal: nat)

  /** A limit that is not a positive integer falls back to the default. */
  function Effective(maxEntries: Option<int>, maxPerPrincipal: Option<int>): (limits: Limits)
    ensures limits.cap > 0 && limits.perPrincipal > 0
  {
    Limits(
      if maxEntries.Some? && maxEntries.value > 0 then maxEntries.value else DEFAULT_CAP,
      if maxPerPrincipal.Some? && maxPerPrincipal.value > 0 then maxPerPrincipal.value else DEFAULT_PER_PRINCIPAL)
  }

  /**
   * `rows` is in insertion order and `seq` is the last id given out. `aborted` are the calls told to stop, `parents`
   * the calls that follow another signal, `fired` the signals that have fired; `open` is the history of the calls
   * begun and not ended.
   */
  datatype State = State(
    rows: seq<Row>,
    last: Id,
    aborted: set<Id>,
    parents: map<Id, Signal>,
    fired: set<Signal>,
    open: set<Id>)

  const START := State([], 0, {}, map[], {}, {})

  datatype Event =
    | Begin(keys: Keys, parent: Option<Signal>)
    | End(id: Id)
    | Cancel(selector: Keys)
    | Reset
    | Fire(signal: Signal)

  function Front(rows: seq<Row>): seq<Row>
    requires rows != []
  {
    rows[..|rows| - 1]
  }

  function Last(rows: seq<Row>): Row
    requires rows != []
  {
    rows[|rows| - 1]
  }

  function CountKey(rows: seq<Row>, principal: string): nat {
    if rows == [] then 0
    else CountKey(Front(rows), principal) + if Last(rows).keys.principal == principal then 1 else 0
  }

  function IdsOf(rows: seq<Row>): (ids: set<Id>)
    ensures forall id :: id in ids <==> exists row <- rows :: row.id == id
  {
    set row <- rows :: row.id
  }

  predicate AtCap(limits: Limits, s: State, keys: Keys) {
    || |s.rows| >= limits.cap
    || (keys.principal != "" && CountKey(s.rows, keys.principal) >= limits.perPrincipal)
  }

  datatype Selector = ById(id: Id) | ByKeys(keys: Keys)

  /** An empty key selects nothing. */
  predicate Selects(selector: Selector, row: Row) {
    match selector
    case ById(id) => row.id == id
    case ByKeys(keys) =>
      || (keys.principal != "" && row.keys.principal == keys.principal)
      || (keys.human != "" && row.keys.human == keys.human)
      || (keys.tenant != "" && row.keys.tenant == keys.tenant)
  }

  function Selected(rows: seq<Row>, selector: Selector): (selected: seq<Row>) {
    if rows == [] then []
    else if Selects(selector, Last(rows)) then Selected(Front(rows), selector) + [Last(rows)]
    else Selected(Front(rows), selector)
  }

  function Without(rows: seq<Row>, selector: Selector): (rest: seq<Row>)
    ensures |rest| + |Selected(rows, selector)| == |rows|
  {
    if rows == [] then []
    else if Selects(selector, Last(rows)) then Without(Front(rows), selector)
    else Without(Front(rows), selector) + [Last(rows)]
  }

  lemma {:induction false} SelectedAre(rows: seq<Row>, selector: Selector)
    ensures forall row :: row in Selected(rows, selector) <==> row in rows && Selects(selector, row)
  {
    hide Selects;
    if rows != [] {
      SelectedAre(Front(rows), selector);
      assert forall row :: row in rows <==> row == Last(rows) || row in Front(rows);
    }
  }

  lemma {:induction false} RestAre(rows: seq<Row>, selector: Selector)
    ensures forall row :: row in Without(rows, selector) <==> row in rows && !Selects(selector, row)
  {
    hide Selects;
    if rows != [] {
      RestAre(Front(rows), selector);
      assert forall row :: row in rows <==> row == Last(rows) || row in Front(rows);
    }
  }

  function Step(limits: Limits, s: State, e: Event): State {
    match e
    case Begin(keys, parent) =>
      if AtCap(limits, s, keys) then s
      else
        var id := s.last + 1;
        State(
          s.rows + [Row(id, keys)],
          id,
          if parent.Some? && parent.value in s.fired then s.aborted + {id} else s.aborted,
          if parent.Some? && parent.value !in s.fired then s.parents[id := parent.value] else s.parents,
          s.fired,
          s.open + {id})
    case End(id) => s.(rows := Without(s.rows, ById(id)), open := s.open - {id})
    case Cancel(selector) =>
      s.(rows := Without(s.rows, ByKeys(selector)), aborted := s.aborted + IdsOf(Selected(s.rows, ByKeys(selector))))
    case Reset => s.(rows := [], aborted := s.aborted + IdsOf(s.rows))
    case Fire(signal) =>
      s.(fired := s.fired + {signal},
         aborted := s.aborted + (set id | id in s.parents && s.parents[id] == signal))
  }

  function Run(limits: Limits, s: State, events: seq<Event>): State {
    if events == [] then s else Step(limits, Run(limits, s, events[..|events| - 1]), events[|events| - 1])
  }

  // ----- what every reachable state satisfies -----

  predicate Increasing(rows: seq<Row>) { forall i, j :: 0 <= i < j < |rows| ==> rows[i].id < rows[j].id }

  predicate Capped(limits: Limits, rows: seq<Row>) {
    |rows| <= limits.cap && forall key: string | key in Principals(rows) :: CountKey(rows, key) <= limits.perPrincipal
  }

  function Principals(rows: seq<Row>): set<string> { set row <- rows | row.keys.principal != "" :: row.keys.principal }

  /** The caps hold, ids are unique, and a call that runs on without being tracked has been told to stop. */
  ghost predicate Inv(limits: Limits, s: State) {
    && Capped(limits, s.rows)
    && Increasing(s.rows)
    && (forall row <- s.rows :: row.id <= s.last && row.id in s.open)
    && (forall id <- s.open + s.aborted + s.parents.Keys :: id <= s.last)
    && (forall id <- s.open :: id in IdsOf(s.rows) || id in s.aborted)
    && (forall id <- s.parents.Keys :: s.parents[id] in s.fired ==> id in s.aborted)
  }

  lemma CountAppend(a: seq<Row>, row: Row, key: string)
    ensures CountKey(a + [row], key) == CountKey(a, key) + if row.keys.principal == key then 1 else 0
  {
    assert Front(a + [row]) == a;
  }

  lemma {:induction false} CountWithout(rows: seq<Row>, selector: Selector, key: string)
    ensures CountKey(Without(rows, selector), key) <= CountKey(rows, key)
  {
    hide Selects;
    if rows != [] {
      CountWithout(Front(rows), selector, key);
      if !Selects(selector, Last(rows)) { CountAppend(Without(Front(rows), selector), Last(rows), key); }
    }
  }

  lemma {:induction false} CountAbsent(rows: seq<Row>, key: string)
    requires forall row <- rows :: row.keys.principal != key
    ensures CountKey(rows, key) == 0
  {
    if rows != [] {
      assert Last(rows) in rows;
      CountAbsent(Front(rows), key);
    }
  }

  lemma {:induction false} WithoutIsIncreasing(rows: seq<Row>, selector: Selector)
    requires Increasing(rows)
    ensures Increasing(Without(rows, selector))
  {
    hide Selects;
    if rows != [] {
      var rest := Without(Front(rows), selector);
      WithoutIsIncreasing(Front(rows), selector);
      RestAre(Front(rows), selector);
      assert forall i :: 0 <= i < |rest| ==> rest[i] in Front(rows);
    }
  }

  lemma BeginKeepsCaps(limits: Limits, s: State, keys: Keys)
    requires Capped(limits, s.rows) && !AtCap(limits, s, keys)
    ensures Capped(limits, s.rows + [Row(s.last + 1, keys)])
  {
    var rows, row := s.rows, Row(s.last + 1, keys);
    forall key <- Principals(rows + [row])
      ensures CountKey(rows + [row], key) <= limits.perPrincipal
    {
      CountAppend(rows, row, key);
      if key !in Principals(rows) { CountAbsent(rows, key); }
    }
  }

  lemma FewerKeepCaps(limits: Limits, rows: seq<Row>, fewer: seq<Row>)
    requires Capped(limits, rows) && |fewer| <= |rows|
    requires forall row <- fewer :: row in rows
    requires forall key :: CountKey(fewer, key) <= CountKey(rows, key)
    ensures Capped(limits, fewer)
  {
    assert Principals(fewer) <= Principals(rows);
  }

  lemma StepKeepsInv(limits: Limits, s: State, e: Event)
    requires Inv(limits, s) && limits.cap > 0 && limits.perPrincipal > 0
    ensures Inv(limits, Step(limits, s, e))
  {
    match e
    case Begin(keys, parent) =>
      if !AtCap(limits, s, keys) { BeginKeepsInv(limits, s, keys, parent); }
    case End(id) =>
      EndKeepsInv(limits, s, id);
    case Cancel(selector) =>
      CancelKeepsInv(limits, s, selector);
    case Reset =>
      assert forall id <- s.open :: id in IdsOf(s.rows) || id in s.aborted;
    case Fire(_) =>
  }

  lemma BeginKeepsInv(limits: Limits, s: State, keys: Keys, parent: Option<Signal>)
    requires Inv(limits, s) && limits.cap > 0 && limits.perPrincipal > 0 && !AtCap(limits, s, keys)
    ensures Inv(limits, Step(limits, s, Begin(keys, parent)))
  {
    hide Capped, CountKey;
    BeginKeepsCaps(limits, s, keys);
    var s' := Step(limits, s, Begin(keys, parent));
    assert s'.rows[|s.rows|].id == s.last + 1;
    assert forall row <- s.rows :: row in s'.rows;
    assert IdsOf(s.rows) <= IdsOf(s'.rows) && s.last + 1 in IdsOf(s'.rows);
  }

  /** Removing rows keeps the caps and the order. */
  lemma WithoutKeeps(limits: Limits, rows: seq<Row>, selector: Selector)
    requires Capped(limits, rows) && Increasing(rows)
    ensures Capped(limits, Without(rows, selector)) && Increasing(Without(rows, selector))
  {
    hide CountKey, Selects, Selected;
    RestAre(rows, selector);
    forall key
      ensures CountKey(Without(rows, selector), key) <= CountKey(rows, key)
    {
      CountWithout(rows, selector, key);
    }
    FewerKeepCaps(limits, rows, Without(rows, selector));
    WithoutIsIncreasing(rows, selector);
  }

  lemma EndKeepsInv(limits: Limits, s: State, id: Id)
    requires Inv(limits, s)
    ensures Inv(limits, Step(limits, s, End(id)))
  {
    hide Capped, Increasing, Without;
    RestAre(s.rows, ById(id));
    WithoutKeeps(limits, s.rows, ById(id));
    forall x <- s.open - {id}
      ensures x in IdsOf(Without(s.rows, ById(id))) || x in s.aborted
    {
      if x !in s.aborted {
        var row :| row in s.rows && row.id == x;
        assert row in Without(s.rows, ById(id));
      }
    }
  }

  lemma CancelKeepsInv(limits: Limits, s: State, keys: Keys)
    requires Inv(limits, s)
    ensures Inv(limits, Step(limits, s, Cancel(keys)))
  {
    hide Capped, Increasing, Without, Selected, Selects;
    RestAre(s.rows, ByKeys(keys));
    SelectedAre(s.rows, ByKeys(keys));
    WithoutKeeps(limits, s.rows, ByKeys(keys));
    var s' := Step(limits, s, Cancel(keys));
    forall x <- s.open
      ensures x in IdsOf(s'.rows) || x in s'.aborted
    {
      if x !in s.aborted {
        var row :| row in s.rows && row.id == x;
        assert row in s'.rows || row in Selected(s.rows, ByKeys(keys));
      }
    }
  }

  /** Every reachable state. */
  lemma {:induction false} RunKeepsInv(limits: Limits, events: seq<Event>)
    requires limits.cap > 0 && limits.perPrincipal > 0
    ensures Inv(limits, Run(limits, START, events))
  {
    hide Step, Inv;
    if events == [] {
      StartKeepsInv(limits);
    } else {
      RunKeepsInv(limits, events[..|events| - 1]);
      StepKeepsInv(limits, Run(limits, START, events[..|events| - 1]), events[|events| - 1]);
    }
  }

  lemma StartKeepsInv(limits: Limits)
    ensures Inv(limits, START)
  {}

  // ----- what the operations do -----

  /** A refused call changes nothing, and only a cap refuses; an accepted one gets an id no call ever had. */
  lemma BeginIsExact(limits: Limits, s: State, keys: Keys, parent: Option<Signal>)
    requires Inv(limits, s)
    ensures var s' := Step(limits, s, Begin(keys, parent));
      if |s.rows| >= limits.cap || (keys.principal != "" && CountKey(s.rows, keys.principal) >= limits.perPrincipal)
      then s' == s
      else && s'.rows == s.rows + [Row(s'.last, keys)]
           && s'.last !in s.open + s.aborted + IdsOf(s.rows) + s.parents.Keys
           && (s'.last in s'.aborted <==> parent.Some? && parent.value in s.fired)
  {
    hide CountKey, Capped;
  }

  /** A late end of a call that was cancelled removes no other call's row: ids are not used again. */
  lemma {:induction false} LateEndIsSilent(limits: Limits, s: State, id: Id, events: seq<Event>)
    requires Inv(limits, s) && limits.cap > 0 && limits.perPrincipal > 0
    requires id <= s.last && id !in IdsOf(s.rows)
    ensures var s' := Run(limits, s, events);
      && id <= s'.last && id !in IdsOf(s'.rows)
      && Step(limits, s', End(id)).rows == s'.rows
  {
    hide Inv, Step;
    if events == [] {
      WithoutAbsent(s.rows, id);
      EndOnlyDrops(limits, s, id);
    } else {
      var front := events[..|events| - 1];
      LateEndIsSilent(limits, s, id, front);
      GoneStaysGone(limits, Run(limits, s, front), id, events[|events| - 1]);
      var s' := Run(limits, s, events);
      WithoutAbsent(s'.rows, id);
      EndOnlyDrops(limits, s', id);
    }
  }

  lemma EndOnlyDrops(limits: Limits, s: State, id: Id)
    ensures Step(limits, s, End(id)).rows == Without(s.rows, ById(id))
  {}

  lemma {:induction false} WithoutAbsent(rows: seq<Row>, id: Id)
    requires id !in IdsOf(rows)
    ensures Without(rows, ById(id)) == rows
  {
    if rows != [] {
      assert Last(rows) in rows && forall row <- Front(rows) :: row in rows;
      WithoutAbsent(Front(rows), id);
    }
  }

  lemma GoneStaysGone(limits: Limits, s: State, id: Id, e: Event)
    requires id <= s.last && id !in IdsOf(s.rows)
    ensures var s' := Step(limits, s, e); id <= s'.last && id !in IdsOf(s'.rows)
  {
    hide Without, Selected, Selects, CountKey;
    match e
    case End(x) => RestAre(s.rows, ById(x));
    case Cancel(keys) => RestAre(s.rows, ByKeys(keys));
    case _ =>
  }

  /** Cancelling drops and aborts exactly the selected calls. */
  lemma CancelIsExact(limits: Limits, s: State, keys: Keys, row: Row)
    requires row in s.rows && Increasing(s.rows)
    ensures var s' := Step(limits, s, Cancel(keys));
      && (row in s'.rows <==> !Selects(ByKeys(keys), row))
      && (row.id in s'.aborted <==> row.id in s.aborted || Selects(ByKeys(keys), row))
      && s'.open == s.open && s'.last == s.last
  {
    hide Selects, Without, Selected;
    RestAre(s.rows, ByKeys(keys));
    SelectedAre(s.rows, ByKeys(keys));
    var s' := Step(limits, s, Cancel(keys));
    if row.id in s'.aborted && row.id !in s.aborted {
      var other :| other in Selected(s.rows, ByKeys(keys)) && other.id == row.id;
      IdsAreUnique(s.rows, row, other);
    }
  }

  lemma IdsAreUnique(rows: seq<Row>, a: Row, b: Row)
    requires Increasing(rows) && a in rows && b in rows && a.id == b.id
    ensures a == b
  {
    var i :| 0 <= i < |rows| && rows[i] == a;
    var j :| 0 <= j < |rows| && rows[j] == b;
    assert i == j;
  }

  /** A call goes if its principal, its person or its tenant is the one named; an empty name names none. */
  lemma CancelTakesWhomItNames(limits: Limits, s: State, keys: Keys, row: Row)
    requires row in s.rows && Increasing(s.rows)
    ensures row !in Step(limits, s, Cancel(keys)).rows <==>
      || (row.keys.principal == keys.principal && keys.principal != "")
      || (row.keys.human == keys.human && keys.human != "")
      || (row.keys.tenant == keys.tenant && keys.tenant != "")
  {
    CancelIsExact(limits, s, keys, row);
    hide Without, Selected;
  }

  /** A reset tells every tracked call to stop and forgets them all. */
  lemma ResetIsExact(limits: Limits, s: State, id: Id)
    ensures var s' := Step(limits, s, Reset);
      && s'.rows == [] && s'.open == s.open && s'.last == s.last
      && (id in s'.aborted <==> id in s.aborted || exists row <- s.rows :: row.id == id)
  {}

  /** An end takes the one row with its id, and no other. */
  lemma EndIsExact(limits: Limits, s: State, id: Id, row: Row)
    ensures var s' := Step(limits, s, End(id));
      && (row in s'.rows <==> row in s.rows && row.id != id) && s'.open == s.open - {id}
      && s'.aborted == s.aborted && s'.last == s.last
  {
    RestAre(s.rows, ById(id));
    ByIdSelects(id);
    hide Without, Selects;
  }

  /** The caps are 128 calls, and 16 of one principal, unless positive ones are given. */
  lemma CapsAreAsGiven(maxEntries: Option<int>, maxPerPrincipal: Option<int>)
    ensures Effective(maxEntries, maxPerPrincipal).cap
         == if maxEntries.None? || maxEntries.value <= 0 then 128 else maxEntries.value
    ensures Effective(maxEntries, maxPerPrincipal).perPrincipal
         == if maxPerPrincipal.None? || maxPerPrincipal.value <= 0 then 16 else maxPerPrincipal.value
  {}

  /** A signal has fired exactly if it had before or does in the run. */
  lemma {:induction false} FiredIsHistory(limits: Limits, s: State, events: seq<Event>, signal: Signal)
    ensures signal in Run(limits, s, events).fired <==> signal in s.fired || Fire(signal) in events
  {
    hide AtCap, Without, Selected;
    if events != [] {
      FiredIsHistory(limits, s, events[..|events| - 1], signal);
      assert events == events[..|events| - 1] + [events[|events| - 1]];
    }
  }

  lemma {:induction false} FollowsStill(limits: Limits, s: State, events: seq<Event>, id: Id)
    requires id in s.parents && id <= s.last
    ensures var s' := Run(limits, s, events);
      id in s'.parents && s'.parents[id] == s.parents[id] && id <= s'.last
  {
    hide AtCap, Without, Selected;
    if events != [] { FollowsStill(limits, s, events[..|events| - 1], id); }
  }

  /** A call that follows a signal has been told to stop once that has fired, whatever else happened. */
  lemma ParentStopsTheCall(
      limits: Limits, s: State, keys: Keys, signal: Signal, events: seq<Event>)
    requires Inv(limits, s) && limits.cap > 0 && limits.perPrincipal > 0 && !AtCap(limits, s, keys)
    requires signal in s.fired || Fire(signal) in events
    ensures s.last + 1 in Run(limits, Step(limits, s, Begin(keys, Some(signal))), events).aborted
  {
    var began := Step(limits, s, Begin(keys, Some(signal)));
    var id := s.last + 1;
    StepKeepsInv(limits, s, Begin(keys, Some(signal)));
    FiredIsHistory(limits, began, events, signal);
    RunsKeepInv(limits, began, events);
    if signal in s.fired {
      AbortedStays(limits, began, events, id);
    } else {
      FollowsStill(limits, began, events, id);
    }
  }

  lemma {:induction false} AbortedStays(limits: Limits, s: State, events: seq<Event>, id: Id)
    requires id in s.aborted
    ensures id in Run(limits, s, events).aborted
  {
    hide AtCap, Without, Selected;
    if events != [] { AbortedStays(limits, s, events[..|events| - 1], id); }
  }

  /** Who is told to stop by one event: those it takes from the table, those that follow a signal, a late follower. */
  lemma StopsAreExact(limits: Limits, s: State, e: Event, id: Id)
    requires Inv(limits, s) && limits.cap > 0 && limits.perPrincipal > 0
    ensures var s' := Step(limits, s, e);
      id in s'.aborted && id !in s.aborted <==>
        (id !in s.aborted &&
         match e
         case Begin(_, parent) => id == s.last + 1 == s'.last && parent.Some? && parent.value in s.fired
         case End(_) => false
         case Cancel(_) => exists row <- s.rows :: row.id == id && row !in s'.rows
         case Reset => exists row <- s.rows :: row.id == id
         case Fire(signal) => id in s.parents && s.parents[id] == signal)
  {
    hide Without, Selected, Selects, Capped, CountKey;
    if e.Cancel? {
      RestAre(s.rows, ByKeys(e.selector));
      SelectedAre(s.rows, ByKeys(e.selector));
    }
  }

  /** An empty selector cancels nothing. */
  lemma {:induction false} EmptySelectsNothing(rows: seq<Row>)
    ensures Selected(rows, ByKeys(Keys("", "", ""))) == [] && Without(rows, ByKeys(Keys("", "", ""))) == rows
  {
    if rows != [] {
      EmptySelectsNothing(Front(rows));
    }
  }

  lemma ByIdSelects(id: Id)
    ensures forall row :: Selects(ById(id), row) <==> row.id == id
  {}

  lemma {:induction false} RunsKeepInv(limits: Limits, s: State, events: seq<Event>)
    requires Inv(limits, s) && limits.cap > 0 && limits.perPrincipal > 0
    ensures Inv(limits, Run(limits, s, events))
  {
    hide Step, Inv;
    if events != [] {
      RunsKeepInv(limits, s, events[..|events| - 1]);
      StepKeepsInv(limits, Run(limits, s, events[..|events| - 1]), events[|events| - 1]);
    }
  }

  // ----- running calls and tracked calls -----

  lemma NoRows(selector: Selector)
    ensures Without([], selector) == [] && Selected([], selector) == [] && IdsOf([]) == {}
  {}

  lemma OneMoreId(rows: seq<Row>, row: Row)
    ensures IdsOf(rows + [row]) == IdsOf(rows) + {row.id}
  {
    assert forall r :: r in rows + [row] <==> r in rows || r == row;
  }

  /** The ids whose row a cancel or a reset took. */
  ghost function Dropped(limits: Limits, events: seq<Event>): set<Id> {
    if events == [] then {}
    else
      var front := events[..|events| - 1];
      Dropped(limits, front) + Taken(Run(limits, START, front).rows, events[|events| - 1])
  }

  ghost function Taken(rows: seq<Row>, e: Event): set<Id> {
    match e
    case Cancel(selector) => IdsOf(Selected(rows, ByKeys(selector)))
    case Reset => IdsOf(rows)
    case _ => {}
  }

  predicate Kills(e: Event) { e.Cancel? || e.Reset? }

  /**
   * The tracked calls are the running ones without those a kill took. So they are the same exactly when every call
   * a kill took has ended, and no more calls run than the cap allows beside those.
   */
  lemma TrackedAreTheRunning(limits: Limits, events: seq<Event>)
    requires limits.cap > 0 && limits.perPrincipal > 0
    ensures var s, dropped := Run(limits, START, events), Dropped(limits, events);
      && IdsOf(s.rows) == s.open - dropped
      && (s.open == IdsOf(s.rows) <==> s.open !! dropped)
      && |s.open| <= limits.cap + |s.open * dropped|
  {
    var s, dropped := Run(limits, START, events), Dropped(limits, events);
    hide Run, Dropped, CountKey, Principals, Increasing, IdsOf;
    RowsAreHistory(limits, events);
    RunKeepsInv(limits, events);
    IdsAreNoMore(s.rows);
    assert s.open == (s.open - dropped) + (s.open * dropped);
  }

  /** Without kills the running calls are the tracked ones, and the cap bounds them. */
  lemma {:induction false} UnkilledAreTracked(limits: Limits, events: seq<Event>)
    requires limits.cap > 0 && limits.perPrincipal > 0
    requires forall i :: 0 <= i < |events| ==> !Kills(events[i])
    ensures var s := Run(limits, START, events); s.open == IdsOf(s.rows) && |s.open| <= limits.cap
  {
    NothingDropped(limits, events);
    TrackedAreTheRunning(limits, events);
    assert Run(limits, START, events).open * {} == {};
  }

  lemma {:induction false} NothingDropped(limits: Limits, events: seq<Event>)
    requires forall i :: 0 <= i < |events| ==> !Kills(events[i])
    ensures Dropped(limits, events) == {}
  {
    if events != [] { NothingDropped(limits, events[..|events| - 1]); }
  }

  lemma {:induction false} IdsAreNoMore(rows: seq<Row>)
    ensures |IdsOf(rows)| <= |rows|
  {
    if rows != [] {
      IdsAreNoMore(Front(rows));
      assert forall row :: row in rows <==> row == Last(rows) || row in Front(rows);
      assert IdsOf(rows) == IdsOf(Front(rows)) + {Last(rows).id};
    }
  }

  lemma {:induction false} RowsAreHistory(limits: Limits, events: seq<Event>)
    requires limits.cap > 0 && limits.perPrincipal > 0
    ensures var s := Run(limits, START, events);
      && IdsOf(s.rows) == s.open - Dropped(limits, events)
      && forall id <- Dropped(limits, events) :: id <= s.last
  {
    hide Inv, Step, IdsOf, Taken;
    if events == [] {
      NoRows(ById(0));
    } else {
      var front, e := events[..|events| - 1], events[|events| - 1];
      var s := Run(limits, START, front);
      RowsAreHistory(limits, front);
      RunKeepsInv(limits, front);
      StepIsHistory(limits, s, e, Dropped(limits, front));
    }
  }

  lemma StepIsHistory(limits: Limits, s: State, e: Event, dropped: set<Id>)
    requires Inv(limits, s) && IdsOf(s.rows) == s.open - dropped && forall id <- dropped :: id <= s.last
    ensures var s' := Step(limits, s, e);
      && IdsOf(s'.rows) == s'.open - (dropped + Taken(s.rows, e))
      && forall id <- dropped + Taken(s.rows, e) :: id <= s'.last
  {
    hide Capped, Without, Selected, Selects, CountKey;
    match e
    case Begin(keys, parent) =>
      if !AtCap(limits, s, keys) { OneMoreId(s.rows, Row(s.last + 1, keys)); }
    case End(id) =>
      RestAre(s.rows, ById(id));
      ByIdSelects(id);
      SplitIds(s.rows, ById(id));
    case Cancel(selector) =>
      SplitIds(s.rows, ByKeys(selector));
    case Reset =>
      NoRows(ById(0));
    case Fire(_) =>
  }

  /** The ids of the rows that stay are those of all rows without those of the selected ones. */
  lemma SplitIds(rows: seq<Row>, selector: Selector)
    requires Increasing(rows)
    ensures IdsOf(Without(rows, selector)) == IdsOf(rows) - IdsOf(Selected(rows, selector))
    ensures IdsOf(Selected(rows, selector)) <= IdsOf(rows)
  {
    hide Selects, Without, Selected;
    RestAre(rows, selector);
    SelectedAre(rows, selector);
    forall a <- Without(rows, selector), b <- Selected(rows, selector)
      ensures a.id != b.id
    {
      if a.id == b.id { IdsAreUnique(rows, a, b); }
    }
  }

  /** The caps bound tracked rows, not running calls: a cancelled call runs on, and a new one takes its place. */
  lemma CapsDoNotBoundRunningCalls(keys: Keys)
    requires keys.principal != ""
    ensures var s := Run(Limits(1, 1), START, [Begin(keys, None), Cancel(keys), Begin(keys, None)]);
      |s.rows| == 1 && s.open == {1, 2} && 1 in s.aborted
  {
    hide Step, Run, Selects;
    var limits := Limits(1, 1);
    FirstBegins(keys);
    var s1 := Step(limits, START, Begin(keys, None));
    OneIsCancelled(s1, keys);
    AnotherBegins(Step(limits, s1, Cancel(keys)), keys);
    ThreeSteps(limits, START, Begin(keys, None), Cancel(keys), Begin(keys, None));
  }

  lemma FirstBegins(keys: Keys)
    ensures var s := Step(Limits(1, 1), START, Begin(keys, None));
      s.rows == [Row(1, keys)] && s.last == 1 && s.open == {1} && s.aborted == {}
  {}

  lemma OneIsCancelled(s: State, keys: Keys)
    requires keys.principal != "" && s.rows == [Row(1, keys)] && s.aborted == {}
    ensures var s' := Step(Limits(1, 1), s, Cancel(keys));
      s'.rows == [] && s'.last == s.last && s'.open == s.open && s'.aborted == {1}
  {
    OneRowGoes(Row(1, keys), keys);
  }

  lemma AnotherBegins(s: State, keys: Keys)
    requires s.rows == [] && s.last == 1 && s.open == {1} && s.aborted == {1}
    ensures var s' := Step(Limits(1, 1), s, Begin(keys, None));
      s'.rows == [Row(2, keys)] && s'.open == {1, 2} && s'.aborted == {1}
  {}

  lemma OneRowGoes(row: Row, keys: Keys)
    requires Selects(ByKeys(keys), row)
    ensures Without([row], ByKeys(keys)) == [] && Selected([row], ByKeys(keys)) == [row]
    ensures IdsOf([row]) == {row.id}
  {
    assert Front([row]) == [];
    assert row in [row];
  }

  lemma ThreeSteps(limits: Limits, s: State, a: Event, b: Event, c: Event)
    ensures Run(limits, s, [a, b, c]) == Step(limits, Step(limits, Step(limits, s, a), b), c)
  {
    hide Step;
    assert [a, b, c][..2] == [a, b] && [a, b][..1] == [a] && [a][..0] == [];
    assert Run(limits, s, [a]) == Step(limits, s, a);
    assert Run(limits, s, [a, b]) == Step(limits, Run(limits, s, [a]), b);
  }

  // ----- the registry as it runs -----

  lemma OneMoreRow(rows: seq<Row>, row: Row, selector: Selector)
    ensures Without(rows + [row], selector) ==
            if Selects(selector, row) then Without(rows, selector) else Without(rows, selector) + [row]
    ensures Selected(rows + [row], selector) ==
            if Selects(selector, row) then Selected(rows, selector) + [row] else Selected(rows, selector)
  {
    hide Selects;
    assert Front(rows + [row]) == rows;
  }

  /** One pass over the table: the rows that stay, the calls to abort, and how many they are. */
  method Sweep(rows: seq<Row>, selector: Selector) returns (kept: seq<Row>, stopped: set<Id>, n: nat)
    ensures kept == Without(rows, selector)
    ensures stopped == IdsOf(Selected(rows, selector)) && n == |Selected(rows, selector)|
  {
    hide Selects, IdsOf, Selected, Without;
    NoRows(selector);
    kept, stopped, n := [], {}, 0;
    for i := 0 to |rows|
      invariant kept == Without(rows[..i], selector)
      invariant n == |Selected(rows[..i], selector)|
      invariant stopped == IdsOf(Selected(rows[..i], selector))
    {
      var row := rows[i];
      assert rows[..i + 1] == rows[..i] + [row];
      OneMoreRow(rows[..i], row, selector);
      if Selects(selector, row) {
        OneMoreId(Selected(rows[..i], selector), row);
        stopped := stopped + {row.id};
        n := n + 1;
      } else {
        kept := kept + [row];
      }
    }
    assert rows[..|rows|] == rows;
  }

  class Registry {
    const limits: Limits
    var entries: seq<Row>
    var counter: Id
    var aborted: set<Id>
    var parents: map<Id, Signal>
    var fired: set<Signal>
    ghost var open: set<Id>

    ghost function Now(): State
      reads this
    {
      State(entries, counter, aborted, parents, fired, open)
    }

    constructor (maxEntries: Option<int>, maxPerPrincipal: Option<int>)
      ensures Now() == START && limits == Effective(maxEntries, maxPerPrincipal)
    {
      limits := Effective(maxEntries, maxPerPrincipal);
      entries, counter, aborted, parents, fired, open := [], 0, {}, map[], {}, {};
    }

    method Begin(keys: Keys, parent: Option<Signal>) returns (r: Option<Id>)
      modifies this
      ensures Now() == Step(limits, old(Now()), Event.Begin(keys, parent))
      ensures r == if AtCap(limits, old(Now()), keys) then None else Some(old(counter) + 1)
    {
      if |entries| >= limits.cap { return None; }
      if keys.principal != "" {
        var n := 0;
        for i := 0 to |entries|
          invariant Now() == old(Now())
          invariant n == CountKey(entries[..i], keys.principal)
        {
          assert entries[..i + 1] == entries[..i] + [entries[i]];
          CountAppend(entries[..i], entries[i], keys.principal);
          if entries[i].keys.principal == keys.principal { n := n + 1; }
        }
        assert entries[..|entries|] == entries;
        if n >= limits.perPrincipal { return None; }
      }
      counter := counter + 1;
      if parent.Some? {
        if parent.value in fired {
          aborted := aborted + {counter};
        } else {
          parents := parents[counter := parent.value];
        }
      }
      entries := entries + [Row(counter, keys)];
      open := open + {counter};
      return Some(counter);
    }

    method End(id: Id)
      modifies this
      ensures Now() == Step(limits, old(Now()), Event.End(id))
    {
      entries := Without(entries, ById(id));
      open := open - {id};
    }

    method Cancel(selector: Keys) returns (n: nat)
      modifies this
      ensures Now() == Step(limits, old(Now()), Event.Cancel(selector))
      ensures n == |Selected(old(entries), ByKeys(selector))|
    {
      if selector == Keys("", "", "") {
        EmptySelectsNothing(entries);
        assert IdsOf([]) == {};
        return 0;
      }
      hide Selects, IdsOf, Selected, Without;
      var kept, stopped;
      kept, stopped, n := Sweep(entries, ByKeys(selector));
      entries, aborted := kept, aborted + stopped;
    }

    method Reset()
      modifies this
      ensures Now() == Step(limits, old(Now()), Event.Reset)
    {
      for i := 0 to |entries|
        invariant Now() == old(Now()).(aborted := aborted)
        invariant aborted == old(aborted) + IdsOf(entries[..i])
      {
        assert entries[..i + 1] == entries[..i] + [entries[i]];
        aborted := aborted + {entries[i].id};
      }
      assert entries[..|entries|] == entries;
      entries := [];
    }

    method ParentFires(signal: Signal)
      modifies this
      ensures Now() == Step(limits, old(Now()), Fire(signal))
    {
      fired := fired + {signal};
      aborted := aborted + (set id | id in parents && parents[id] == signal);
    }
  }
}
