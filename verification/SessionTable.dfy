/**
 * The legacy session table: an insertion-ordered map used as an LRU list with idle eviction, a cap and a
 * principal bound to each session. Requests run as tasks that interleave only where the handler awaits.
 */
module SessionTable {
  import opened Common

  /** A session id stands for a random UUID: ids of new sessions are fresh. */
  type Id = nat
  type Task = nat

  datatype Entry = Entry(id: Id, principal: string, lastUsed: int)

  /** The map in insertion order. */
  type Table = seq<Entry>

  /** Ids are distinct, and later entries were used no earlier. */
  ghost predicate WellOrdered(t: Table) {
    t != [] ==> (forall e <- t[1..] :: e.id != t[0].id && t[0].lastUsed <= e.lastUsed) && WellOrdered(t[1..])
  }

  predicate Has(t: Table, id: Id) { exists e <- t :: e.id == id }

  function Find(t: Table, id: Id): (e: Entry)
    requires Has(t, id)
    ensures e in t && e.id == id
  {
    if t[0].id == id then t[0] else Find(t[1..], id)
  }

  function Remove(t: Table, id: Id): (r: Table)
    ensures |r| <= |t|
    ensures forall e :: e in r <==> e in t && e.id != id
  {
    if t == [] then []
    else if t[0].id == id then Remove(t[1..], id)
    else [t[0]] + Remove(t[1..], id)
  }

  /** Deleted and set again: the entry moves to the end. */
  function Touched(t: Table, id: Id, now: int): Table
    requires Has(t, id)
  {
    Remove(t, id) + [Find(t, id).(lastUsed := now)]
  }

  lemma {:induction false} RemoveKeepsOrder(t: Table, id: Id)
    requires WellOrdered(t)
    ensures WellOrdered(Remove(t, id))
    ensures |Remove(t, id)| == |t| - if Has(t, id) then 1 else 0
  {
    if t != [] {
      RemoveKeepsOrder(t[1..], id);
      assert t == [t[0]] + t[1..];
      if t[0].id == id { assert !Has(t[1..], id); }
    }
  }

  lemma {:induction false} AppendKeepsOrder(t: Table, last: Entry)
    requires WellOrdered(t) && forall e <- t :: e.id != last.id && e.lastUsed <= last.lastUsed
    ensures WellOrdered(t + [last])
  {
    if t != [] {
      AppendKeepsOrder(t[1..], last);
      assert (t + [last])[1..] == t[1..] + [last];
    }
  }

  lemma {:induction false} OrderedByUse(t: Table, i: nat, j: nat)
    requires WellOrdered(t) && i < j < |t|
    ensures t[i].lastUsed <= t[j].lastUsed && t[i].id != t[j].id
  {
    if i == 0 {
      assert t[j] in t[1..];
    } else {
      OrderedByUse(t[1..], i - 1, j - 1);
    }
  }

  lemma TouchKeepsOrder(t: Table, id: Id, now: int)
    requires WellOrdered(t) && Has(t, id) && forall e <- t :: e.lastUsed <= now
    ensures WellOrdered(Touched(t, id, now)) && |Touched(t, id, now)| == |t|
  {
    RemoveKeepsOrder(t, id);
    AppendKeepsOrder(Remove(t, id), Find(t, id).(lastUsed := now));
  }

  // ----- the machine -----

  datatype Method = Get | Post | Delete | OtherMethod

  /** What routing looks at. A principal that cannot be bound is None. */
  datatype Req = Req(session: Option<Id>, principal: Option<string>, verb: Method, initialize: bool)

  /** How far a request has come: the idle sweep, the routing step, making room, or building a server. */
  datatype Phase =
    | Sweeping(todo: seq<Id>, cutoff: int, req: Req)
    | Routing(req: Req)
    | MakingRoom(principal: string)
    | Opening(principal: string)

  /** `openedBy` is the history of all sessions, by the principal that opened each. */
  datatype State = State(table: Table, now: int, tasks: map<Task, Phase>, openedBy: map<Id, string>)

  /** The cap, and the idle time to live unless that is switched off. */
  datatype Config = Config(maxSessions: nat, idleMs: Option<int>)

  datatype Event =
    | Tick(now: int)
    | Arrive(task: Task, req: Req)
    | Sweep(task: Task)
    | Route(task: Task)
    | MakeRoom(task: Task)
    | Initialized(task: Task, id: Id)
    | Abandon(task: Task)
    | TransportClosed(id: Id)

  datatype Effect =
    | Evicted(entry: Entry, cutoff: int)
    | Displaced(entry: Entry)
    | Used(id: Id, principal: string)
    | Deleted(id: Id, principal: string)
    | Opened(id: Id, principal: string)
    | Status(code: int)

  predicate At(s: State, task: Task, e: Event) {
    task in s.tasks &&
    match e
    case Sweep(_) => s.tasks[task].Sweeping?
    case Route(_) => s.tasks[task].Routing?
    case MakeRoom(_) => s.tasks[task].MakingRoom?
    case Initialized(_, _) => s.tasks[task].Opening?
    case Abandon(_) => s.tasks[task].Opening?
    case _ => false
  }

  /** The clock does not go back, tasks are new when they arrive, and new session ids are fresh. */
  predicate Enabled(s: State, e: Event) {
    match e
    case Tick(now) => s.now <= now
    case Arrive(task, _) => task !in s.tasks
    case Initialized(task, id) => At(s, task, e) && id !in s.openedBy
    case TransportClosed(_) => true
    case _ => At(s, e.task, e)
  }

  /** What may happen next: the clock and closing transports at any time, a task as far as it has come. */
  lemma EnabledExactly(s: State, task: Task, id: Id, req: Req, now: int)
    ensures Enabled(s, Tick(now)) <==> now >= s.now
    ensures Enabled(s, Arrive(task, req)) <==> task !in s.tasks
    ensures Enabled(s, Sweep(task)) <==> task in s.tasks && s.tasks[task].Sweeping?
    ensures Enabled(s, Route(task)) <==> task in s.tasks && s.tasks[task].Routing?
    ensures Enabled(s, MakeRoom(task)) <==> task in s.tasks && s.tasks[task].MakingRoom?
    ensures Enabled(s, Initialized(task, id)) <==>
              task in s.tasks && s.tasks[task].Opening? && id !in s.openedBy
    ensures Enabled(s, Abandon(task)) <==> task in s.tasks && s.tasks[task].Opening?
    ensures Enabled(s, TransportClosed(id))
  {}

  function Ids(t: Table): (ids: seq<Id>)
    ensures |ids| == |t| && forall i :: 0 <= i < |t| ==> ids[i] == t[i].id
  {
    if t == [] then [] else [t[0].id] + Ids(t[1..])
  }

  /** The sweep's snapshot and its cutoff; none of it when idle eviction is off. */
  function StartSweep(cfg: Config, s: State, req: Req): Phase {
    if cfg.idleMs.None? || cfg.idleMs.value < 0 then Sweeping([], 0, req)
    else Sweeping(Ids(s.table), s.now - cfg.idleMs.value, req)
  }

  function SweepOne(s: State, task: Task): (State, seq<Effect>)
    requires task in s.tasks && s.tasks[task].Sweeping?
  {
    var phase := s.tasks[task];
    if phase.todo == [] then (s.(tasks := s.tasks[task := Routing(phase.req)]), [])
    else
      var id := phase.todo[0];
      var next := s.(tasks := s.tasks[task := phase.(todo := phase.todo[1..])]);
      if Has(s.table, id) && Find(s.table, id).lastUsed <= phase.cutoff then
        (next.(table := Remove(s.table, id)), [Evicted(Find(s.table, id), phase.cutoff)])
      else (next, [])
  }

  /** The task is over. */
  function Finish(s: State, task: Task): State { s.(tasks := s.tasks - {task}) }

  function RouteOne(s: State, task: Task): (State, seq<Effect>)
    requires task in s.tasks && s.tasks[task].Routing?
  {
    var req := s.tasks[task].req;
    var over := Finish(s, task);
    match req.session
    case Some(id) =>
      if !Has(s.table, id) then (over, [Status(404)])
      else
        var entry := Find(s.table, id);
        if req.principal.None? || req.principal.value == "" || entry.principal != req.principal.value then
          (over, [Status(403)])
        else if req.verb.Delete? then
          (over.(table := Remove(s.table, id)), [Deleted(id, req.principal.value), Status(200)])
        else (over.(table := Touched(s.table, id, s.now)), [Used(id, req.principal.value)])
    case None =>
      if req.verb.Get? || req.verb.Delete? then (over, [Status(405)])
      else if !req.verb.Post? || !req.initialize then (over, [Status(400)])
      else if req.principal.None? || req.principal.value == "" then (over, [Status(403)])
      else (s.(tasks := s.tasks[task := MakingRoom(req.principal.value)]), [])
  }

  function MakeRoomOne(cfg: Config, s: State, task: Task): (State, seq<Effect>)
    requires task in s.tasks && s.tasks[task].MakingRoom?
  {
    if |s.table| >= cfg.maxSessions && s.table != [] then
      (s.(table := Remove(s.table, s.table[0].id)), [Displaced(s.table[0])])
    else (s.(tasks := s.tasks[task := Opening(s.tasks[task].principal)]), [])
  }

  function Step(cfg: Config, s: State, e: Event): (State, seq<Effect>)
    requires Enabled(s, e)
  {
    match e
    case Tick(now) => (s.(now := now), [])
    case Arrive(task, req) => (s.(tasks := s.tasks[task := StartSweep(cfg, s, req)]), [])
    case Sweep(task) => SweepOne(s, task)
    case Route(task) => RouteOne(s, task)
    case MakeRoom(task) => MakeRoomOne(cfg, s, task)
    case Initialized(task, id) =>
      var p := s.tasks[task].principal;
      (Finish(s, task).(table := s.table + [Entry(id, p, s.now)], openedBy := s.openedBy[id := p]), [Opened(id, p)])
    case Abandon(task) => (Finish(s, task), [])
    case TransportClosed(id) => (s.(table := Remove(s.table, id)), [])
  }

  // ----- what every interleaving keeps -----

  ghost predicate TableInv(t: Table, now: int, openedBy: map<Id, string>) {
    && WellOrdered(t)
    && forall e <- t :: e.lastUsed <= now && e.id in openedBy && openedBy[e.id] == e.principal
  }

  /** Every entry that is idle for a running sweep is still to be visited by it. */
  ghost predicate SweepCovers(t: Table, now: int, p: Phase) {
    p.Sweeping? ==> p.cutoff < now && forall e <- t | e.lastUsed <= p.cutoff :: e.id in p.todo
  }

  ghost predicate SweepsCover(cfg: Config, s: State) {
    cfg.idleMs.Some? && cfg.idleMs.value > 0 ==> forall t <- s.tasks :: SweepCovers(s.table, s.now, s.tasks[t])
  }

  ghost predicate Inv(cfg: Config, s: State) { TableInv(s.table, s.now, s.openedBy) && SweepsCover(cfg, s) }

  /** What an effect means, in the state before it. */
  ghost predicate Justified(cfg: Config, s: State, f: Effect) {
    match f
    case Evicted(entry, cutoff) =>
      // The entry is idle, and so is everything before it in the map.
      exists i :: 0 <= i < |s.table| && s.table[i] == entry
        && forall j :: 0 <= j <= i ==> s.table[j].lastUsed <= cutoff
    case Displaced(entry) =>
      // A least recently used entry goes, and only when the table is full.
      && entry in s.table && |s.table| >= cfg.maxSessions
      && forall e <- s.table :: entry.lastUsed <= e.lastUsed
    case Used(id, principal) => id in s.openedBy && s.openedBy[id] == principal && Has(s.table, id)
    case Deleted(id, principal) => id in s.openedBy && s.openedBy[id] == principal && Has(s.table, id)
    case Opened(id, principal) => id !in s.openedBy
    case Status(_) => true
  }

  /** A table whose old entries were kept or used just now is covered by the sweeps that covered the old one. */
  lemma CoverIsKept(t: Table, t': Table, now: int, p: Phase)
    requires SweepCovers(t, now, p) && forall e <- t' :: e in t || e.lastUsed >= now
    ensures SweepCovers(t', now, p)
  {
  }

  lemma SweepsStillCover(cfg: Config, s: State, s': State)
    requires SweepsCover(cfg, s) && s'.now >= s.now
    requires forall e <- s'.table :: e in s.table || e.lastUsed >= s.now
    requires forall t <- s'.tasks | s'.tasks[t].Sweeping? :: t in s.tasks && s'.tasks[t] == s.tasks[t]
    ensures SweepsCover(cfg, s')
  {
    hide SweepCovers;
    if cfg.idleMs.Some? && cfg.idleMs.value > 0 {
      forall t <- s'.tasks ensures SweepCovers(s'.table, s'.now, s'.tasks[t]) {
        NotSweeping(s'.table, s'.now, s'.tasks[t]);
        if s'.tasks[t].Sweeping? {
          CoverIsKept(s.table, s'.table, s.now, s.tasks[t]);
          LaterCovers(s'.table, s.now, s'.now, s'.tasks[t]);
        }
      }
    }
  }

  lemma NotSweeping(t: Table, now: int, p: Phase)
    ensures !p.Sweeping? ==> SweepCovers(t, now, p)
  {
  }

  lemma LaterCovers(t: Table, now: int, now': int, p: Phase)
    requires SweepCovers(t, now, p) && now <= now'
    ensures SweepCovers(t, now', p)
  {
  }

  lemma RemoveKeepsTable(s: State, id: Id)
    requires TableInv(s.table, s.now, s.openedBy)
    ensures TableInv(Remove(s.table, id), s.now, s.openedBy)
  {
    hide WellOrdered;
    RemoveKeepsOrder(s.table, id);
  }

  lemma StepKeepsInv(cfg: Config, s: State, e: Event)
    requires Inv(cfg, s) && Enabled(s, e)
    ensures Inv(cfg, Step(cfg, s, e).0)
    ensures forall f <- Step(cfg, s, e).1 :: Justified(cfg, s, f)
  {
    hide WellOrdered, SweepsCover, SweepOne, RouteOne, MakeRoomOne, StartSweep, Remove;
    match e
    case Tick(now) =>
      SweepsStillCover(cfg, s, s.(now := now));
    case Arrive(task, req) =>
      ArriveKeepsInv(cfg, s, task, req);
    case Sweep(task) =>
      SweepKeepsInv(cfg, s, task);
    case Route(task) =>
      RouteKeepsInv(cfg, s, task);
    case MakeRoom(task) =>
      MakeRoomKeepsInv(cfg, s, task);
    case Initialized(task, id) =>
      var s' := Step(cfg, s, e).0;
      AppendKeepsOrder(s.table, Entry(id, s.tasks[task].principal, s.now));
      SweepsStillCover(cfg, s, s');
    case Abandon(task) =>
      SweepsStillCover(cfg, s, Finish(s, task));
    case TransportClosed(id) =>
      RemoveKeepsTable(s, id);
      SweepsStillCover(cfg, s, s.(table := Remove(s.table, id)));
  }

  lemma ArriveKeepsInv(cfg: Config, s: State, task: Task, req: Req)
    requires Inv(cfg, s) && task !in s.tasks
    ensures Inv(cfg, s.(tasks := s.tasks[task := StartSweep(cfg, s, req)]))
  {
    hide WellOrdered;
    forall x <- s.table ensures x.id in Ids(s.table) {
      var i :| 0 <= i < |s.table| && s.table[i] == x;
      assert Ids(s.table)[i] == x.id;
    }
  }

  lemma SweepKeepsInv(cfg: Config, s: State, task: Task)
    requires Inv(cfg, s) && task in s.tasks && s.tasks[task].Sweeping?
    ensures Inv(cfg, SweepOne(s, task).0)
    ensures forall f <- SweepOne(s, task).1 :: Justified(cfg, s, f)
  {
    hide WellOrdered;
    var p := s.tasks[task];
    var s' := SweepOne(s, task).0;
    if p.todo == [] {
      SweepsStillCover(cfg, s, s');
    } else {
      var id := p.todo[0];
      RemoveKeepsTable(s, id);
      if Has(s.table, id) && Find(s.table, id).lastUsed <= p.cutoff {
        IdlePrefix(s.table, Find(s.table, id), p.cutoff);
      }
      if cfg.idleMs.Some? && cfg.idleMs.value > 0 {
        VisitedCover(s.table, s.now, p);
        forall t <- s'.tasks ensures SweepCovers(s'.table, s'.now, s'.tasks[t]) {
          if t != task { CoverIsKept(s.table, s'.table, s.now, s.tasks[t]); }
        }
      }
    }
  }

  /** After a visit the visited entry is gone or not idle. */
  lemma VisitedCover(t: Table, now: int, p: Phase)
    requires WellOrdered(t) && p.Sweeping? && p.todo != [] && SweepCovers(t, now, p)
    ensures var id := p.todo[0];
      var t' := if Has(t, id) && Find(t, id).lastUsed <= p.cutoff then Remove(t, id) else t;
      SweepCovers(t', now, p.(todo := p.todo[1..]))
  {
    var id := p.todo[0];
    assert p.todo == [id] + p.todo[1..];
    if Has(t, id) { UniqueId(t, Find(t, id)); }
  }

  lemma {:induction false} UniqueId(t: Table, e: Entry)
    requires WellOrdered(t) && e in t
    ensures forall x <- t | x.id == e.id :: x == e
  {
    if t[0] != e {
      UniqueId(t[1..], e);
    }
  }

  lemma IdlePrefix(t: Table, e: Entry, cutoff: int)
    requires WellOrdered(t) && e in t && e.lastUsed <= cutoff
    ensures exists i :: 0 <= i < |t| && t[i] == e && forall j :: 0 <= j <= i ==> t[j].lastUsed <= cutoff
  {
    var i :| 0 <= i < |t| && t[i] == e;
    forall j | 0 <= j <= i ensures t[j].lastUsed <= cutoff {
      if j < i { OrderedByUse(t, j, i); }
    }
  }

  lemma RouteKeepsInv(cfg: Config, s: State, task: Task)
    requires Inv(cfg, s) && task in s.tasks && s.tasks[task].Routing?
    ensures Inv(cfg, RouteOne(s, task).0)
    ensures forall f <- RouteOne(s, task).1 :: Justified(cfg, s, f)
  {
    hide WellOrdered, SweepsCover, Remove;
    var req := s.tasks[task].req;
    if req.session.Some? && Has(s.table, req.session.value) {
      var id := req.session.value;
      RemoveKeepsTable(s, id);
      TouchKeepsOrder(s.table, id, s.now);
    }
    SweepsStillCover(cfg, s, RouteOne(s, task).0);
  }

  lemma MakeRoomKeepsInv(cfg: Config, s: State, task: Task)
    requires Inv(cfg, s) && task in s.tasks && s.tasks[task].MakingRoom?
    ensures Inv(cfg, MakeRoomOne(cfg, s, task).0)
    ensures forall f <- MakeRoomOne(cfg, s, task).1 :: Justified(cfg, s, f)
  {
    hide SweepsCover, Remove;
    if s.table != [] {
      RemoveKeepsTable(s, s.table[0].id);
      assert s.table == [s.table[0]] + s.table[1..];
    }
    SweepsStillCover(cfg, s, MakeRoomOne(cfg, s, task).0);
  }

  /** When a sweep is done no entry that it had to remove is left, whatever ran in between. */
  lemma SweptClean(cfg: Config, s: State, task: Task)
    requires Inv(cfg, s) && cfg.idleMs.Some? && cfg.idleMs.value > 0
    requires task in s.tasks && s.tasks[task].Sweeping? && s.tasks[task].todo == []
    ensures forall e <- s.table :: e.lastUsed > s.tasks[task].cutoff
  {
    assert SweepCovers(s.table, s.now, s.tasks[task]);
  }

  // ----- what each effect does to the table -----

  ghost predicate Listed(t: Table, id: Id) { exists e <- t :: e.id == id }

  /** The entry with this id has left, and all others stay. */
  ghost predicate Gone(t: Table, t': Table, id: Id) {
    !Listed(t', id) && (forall e <- t :: e.id != id ==> e in t') && forall e <- t' :: e in t
  }

  /** This entry is the last, and the others are those of before without its id. */
  ghost predicate Placed(t: Table, t': Table, last: Entry) {
    && t' != [] && t'[|t'| - 1] == last
    && (forall e <- t :: e.id != last.id ==> e in t') && forall e <- t' :: e == last || (e in t && e.id != last.id)
  }

  ghost predicate TakesEffect(s: State, s': State, f: Effect) {
    match f
    case Evicted(entry, _) => Gone(s.table, s'.table, entry.id)
    case Displaced(entry) => Gone(s.table, s'.table, entry.id)
    case Deleted(id, _) => Gone(s.table, s'.table, id)
    case Used(id, principal) => Placed(s.table, s'.table, Entry(id, principal, s.now))
    case Opened(id, principal) => Placed(s.table, s'.table, Entry(id, principal, s.now))
    case Status(_) => true
  }

  /** Effects by one task are what becomes of the table, and without one the table stays. */
  ghost predicate Happens(s: State, r: (State, seq<Effect>)) {
    && (forall f <- r.1 :: TakesEffect(s, r.0, f))
    && ((forall f <- r.1 :: f.Status?) ==> r.0.table == s.table)
  }

  lemma SweepHappens(s: State, task: Task)
    requires WellOrdered(s.table) && task in s.tasks && s.tasks[task].Sweeping?
    ensures Happens(s, SweepOne(s, task))
  {
    hide WellOrdered;
    var out := SweepOne(s, task).1;
    assert out != [] ==> out[0] in out;
  }

  lemma RouteHappens(s: State, task: Task)
    requires WellOrdered(s.table) && task in s.tasks && s.tasks[task].Routing?
    ensures Happens(s, RouteOne(s, task))
  {
    hide WellOrdered;
    var req, out := s.tasks[task].req, RouteOne(s, task).1;
    assert out != [] ==> out[0] in out;
    if req.session.Some? && Has(s.table, req.session.value) { HasOne(s.table, Find(s.table, req.session.value)); }
  }

  lemma MakeRoomHappens(cfg: Config, s: State, task: Task)
    requires WellOrdered(s.table) && task in s.tasks && s.tasks[task].MakingRoom?
    ensures Happens(s, MakeRoomOne(cfg, s, task))
  {
    hide WellOrdered;
    var out := MakeRoomOne(cfg, s, task).1;
    assert out != [] ==> out[0] in out;
    if s.table != [] { assert s.table[0] in s.table; }
  }

  /** Every effect of a step is what becomes of the table; without one it stays, but for a closed transport. */
  lemma EffectsHappen(cfg: Config, s: State, e: Event)
    requires Inv(cfg, s) && Enabled(s, e)
    ensures var (s', out) := Step(cfg, s, e);
      && (forall f <- out :: TakesEffect(s, s', f))
      && ((forall f <- out :: f.Status?) ==>
            if e.TransportClosed? then Gone(s.table, s'.table, e.id) else s'.table == s.table)
  {
    hide WellOrdered, SweepsCover, SweepOne, RouteOne, MakeRoomOne, StartSweep;
    match e
    case Sweep(task) => SweepHappens(s, task);
    case Route(task) => RouteHappens(s, task);
    case MakeRoom(task) => MakeRoomHappens(cfg, s, task);
    case Initialized(task, id) =>
      var out := Step(cfg, s, e).1;
      assert out[0] in out && forall x <- s.table :: x.id != id;
    case _ =>
  }

  lemma HasOne(t: Table, e: Entry)
    requires e in t && WellOrdered(t)
    ensures Listed(t, e.id) && forall x <- t | x.id == e.id :: x == e
  {
    UniqueId(t, e);
  }

  /** A request ends with this answer, and nothing but the table has changed. */
  ghost predicate Answers(s: State, task: Task, r: (State, seq<Effect>), out: seq<Effect>) {
    r.1 == out && r.0 == s.(table := r.0.table, tasks := s.tasks - {task})
  }

  lemma UnlistedIsNotFound(cfg: Config, s: State, task: Task, req: Req)
    requires task in s.tasks && s.tasks[task] == Routing(req) && req.session.Some?
    requires forall x <- s.table :: x.id != req.session.value
    ensures Answers(s, task, Step(cfg, s, Route(task)), [Status(404)])
  {}

  /** A listed session serves exactly the principal that opened it: DELETE ends it, any other verb uses it. */
  lemma ListedServesItsOwner(cfg: Config, s: State, task: Task, req: Req, entry: Entry)
    requires task in s.tasks && s.tasks[task] == Routing(req) && WellOrdered(s.table)
    requires entry in s.table && req.session == Some(entry.id)
    ensures var owner := req.principal == Some(entry.principal) && entry.principal != "";
      Answers(s, task, Step(cfg, s, Route(task)),
        if !owner then [Status(403)]
        else if req.verb == Delete then [Deleted(entry.id, entry.principal), Status(200)]
        else [Used(entry.id, entry.principal)])
  {
    UniqueId(s.table, entry);
  }

  /** Without a session only an initialize of a named principal gets on, to the making of room. */
  lemma WithoutSession(cfg: Config, s: State, task: Task, req: Req)
    requires task in s.tasks && s.tasks[task] == Routing(req) && req.session == None
    ensures var r := Step(cfg, s, Route(task));
      if req.verb == Get || req.verb == Delete then Answers(s, task, r, [Status(405)])
      else if req.verb == OtherMethod || !req.initialize then Answers(s, task, r, [Status(400)])
      else if req.principal == None || req.principal == Some("") then Answers(s, task, r, [Status(403)])
      else r == (s.(tasks := s.tasks[task := MakingRoom(req.principal.value)]), [])
  {}

  /** The first entry goes exactly while the table is full; then the open goes on. */
  lemma RoomIsMadeExactly(cfg: Config, s: State, task: Task, principal: string)
    requires task in s.tasks && s.tasks[task] == MakingRoom(principal) && cfg.maxSessions >= 1
    ensures var (s', out) := Step(cfg, s, MakeRoom(task));
      if |s.table| >= cfg.maxSessions then out == [Displaced(s.table[0])] && s'.tasks == s.tasks
      else out == [] && s' == s.(tasks := s.tasks[task := Opening(principal)])
  {}

  /** A sweep is of all sessions there are, against the clock less the idle time; none if that is off or negative. */
  lemma SweepStartsExactly(cfg: Config, s: State, task: Task, req: Req)
    requires task !in s.tasks
    ensures var s' := Step(cfg, s, Arrive(task, req)).0;
      && s'.table == s.table && task in s'.tasks && s'.tasks[task].Sweeping? && s'.tasks[task].req == req
      && var p := s'.tasks[task];
      if cfg.idleMs.Some? && cfg.idleMs.value >= 0 then
        && p.cutoff == s.now - cfg.idleMs.value && |p.todo| == |s.table|
        && forall i :: 0 <= i < |s.table| ==> p.todo[i] == s.table[i].id
      else p.todo == []
  {}

  /** A visited session is evicted exactly if it is still listed and idle; after the last one the request is routed. */
  lemma VisitIsExact(cfg: Config, s: State, task: Task, id: Id, entry: Entry)
    requires task in s.tasks && s.tasks[task].Sweeping? && WellOrdered(s.table)
    ensures var (s', out) := Step(cfg, s, Sweep(task));
      var p := s.tasks[task];
      if p.todo == [] then out == [] && s'.tasks == s.tasks[task := Routing(p.req)]
      else
        && s'.tasks == s.tasks[task := p.(todo := p.todo[1..])]
        && (Evicted(entry, p.cutoff) in out <==>
              entry in s.table && entry.id == p.todo[0] && entry.lastUsed <= p.cutoff)
        && ((forall x <- s.table :: x.id != p.todo[0]) ==> out == [])
  {
    var p := s.tasks[task];
    if p.todo != [] && entry in s.table && entry.id == p.todo[0] { UniqueId(s.table, entry); }
  }

  /** An open ends with the new session, under the principal it was for, or with nothing. */
  lemma OpensExactly(cfg: Config, s: State, task: Task, id: Id, principal: string)
    requires task in s.tasks && s.tasks[task] == Opening(principal)
    ensures Step(cfg, s, Abandon(task)) == (s.(tasks := s.tasks - {task}), [])
    ensures id !in s.openedBy ==>
      var (s', out) := Step(cfg, s, Initialized(task, id));
      && out == [Opened(id, principal)] && s'.openedBy == s.openedBy[id := principal]
      && s'.tasks == s.tasks - {task} && s'.now == s.now
  {}

  // ----- runs -----

  function Openings(tasks: map<Task, Phase>): set<Task> { set t <- tasks | tasks[t].Opening? }

  /** A run in which at most `n` opens are under way at any time. */
  ghost predicate RunWithin(cfg: Config, s: State, events: seq<Event>, n: nat)
    decreases |events|
  {
    && |Openings(s.tasks)| <= n
    && (events != [] ==> Enabled(s, events[0]) && RunWithin(cfg, Step(cfg, s, events[0]).0, events[1..], n))
  }

  function Final(cfg: Config, s: State, events: seq<Event>, n: nat): State
    requires RunWithin(cfg, s, events, n)
    decreases |events|
  {
    if events == [] then s else Final(cfg, Step(cfg, s, events[0]).0, events[1..], n)
  }

  function Log(cfg: Config, s: State, events: seq<Event>, n: nat): seq<Effect>
    requires RunWithin(cfg, s, events, n)
    decreases |events|
  {
    if events == [] then []
    else Step(cfg, s, events[0]).1 + Log(cfg, Step(cfg, s, events[0]).0, events[1..], n)
  }

  const START := State([], 0, map[], map[])

  lemma {:induction false} RunKeepsInv(cfg: Config, s: State, events: seq<Event>, n: nat)
    requires Inv(cfg, s) && RunWithin(cfg, s, events, n)
    ensures Inv(cfg, Final(cfg, s, events, n))
    decreases |events|
  {
    hide Inv, Step;
    if events != [] {
      StepKeepsInv(cfg, s, events[0]);
      RunKeepsInv(cfg, Step(cfg, s, events[0]).0, events[1..], n);
    }
  }

  lemma OpeningsAfter(tasks: map<Task, Phase>, task: Task, phase: Phase)
    ensures Openings(tasks[task := phase])
         == if phase.Opening? then Openings(tasks) + {task} else Openings(tasks) - {task}
    ensures Openings(tasks - {task}) == Openings(tasks) - {task}
  {
  }

  /** Passing the capacity check is the only step that raises entries plus opens, and it leaves room for itself. */
  lemma StepGrowth(cfg: Config, s: State, e: Event)
    requires Enabled(s, e) && cfg.maxSessions >= 1
    ensures var s' := Step(cfg, s, e).0;
      || |s'.table| + |Openings(s'.tasks)| <= |s.table| + |Openings(s.tasks)|
      || |s'.table| <= cfg.maxSessions - 1
  {
    hide Remove, Find, Ids, Openings;
    match e
    case Tick(_) =>
    case TransportClosed(_) =>
    case Arrive(task, req) =>
      OpeningsAfter(s.tasks, task, StartSweep(cfg, s, req));
    case Sweep(task) =>
      OpeningsAfter(s.tasks, task, SweepOne(s, task).0.tasks[task]);
    case Route(task) =>
      OpeningsAfter(s.tasks, task, MakingRoom(""));
      if task in RouteOne(s, task).0.tasks { OpeningsAfter(s.tasks, task, RouteOne(s, task).0.tasks[task]); }
      RouteGrowth(s, task);
    case MakeRoom(task) =>
    case Initialized(task, _) =>
      OpeningsAfter(s.tasks, task, s.tasks[task]);
      assert s.tasks[task := s.tasks[task]] == s.tasks;
    case Abandon(task) =>
      OpeningsAfter(s.tasks, task, s.tasks[task]);
  }

  lemma RouteGrowth(s: State, task: Task)
    requires task in s.tasks && s.tasks[task].Routing?
    ensures |RouteOne(s, task).0.table| <= |s.table|
  {
    hide Find;
    var req := s.tasks[task].req;
    if req.session.Some? && Has(s.table, req.session.value) {
      RemoveShrinks(s.table, req.session.value);
    }
  }

  lemma {:induction false} RemoveShrinks(t: Table, id: Id)
    requires Has(t, id)
    ensures |Remove(t, id)| < |t|
  {
    if t[0].id != id {
      RemoveShrinks(t[1..], id);
    }
  }

  /** The real cap: with at most n overlapping opens, entries and opens together stay below maxSessions + n. */
  lemma {:induction false} CapUnderOverlap(cfg: Config, s: State, events: seq<Event>, n: nat)
    requires cfg.maxSessions >= 1 && RunWithin(cfg, s, events, n)
    requires |s.table| + |Openings(s.tasks)| <= cfg.maxSessions - 1 + n
    ensures var f := Final(cfg, s, events, n);
      |f.table| + |Openings(f.tasks)| <= cfg.maxSessions - 1 + n
    decreases |events|
  {
    hide Step, Openings;
    if events != [] {
      StepGrowth(cfg, s, events[0]);
      CapUnderOverlap(cfg, Step(cfg, s, events[0]).0, events[1..], n);
    }
  }

  /** Without overlapping opens the cap is strict. */
  lemma CapWithoutOverlap(cfg: Config, events: seq<Event>)
    requires cfg.maxSessions >= 1 && RunWithin(cfg, START, events, 1)
    ensures |Final(cfg, START, events, 1).table| <= cfg.maxSessions
  {
    CapUnderOverlap(cfg, START, events, 1);
  }

  ghost predicate ByOwner(f: Effect, before: seq<Effect>) {
    match f
    case Used(id, principal) => Opened(id, principal) in before
    case Deleted(id, principal) => Opened(id, principal) in before
    case _ => true
  }

  /** A session is used or deleted only under the principal that opened it, and only after that. */
  ghost predicate OwnersOnly(log: seq<Effect>) {
    forall i :: 0 <= i < |log| ==> ByOwner(log[i], log[..i])
  }

  lemma {:induction false} SessionsKeepTheirOwner(
    cfg: Config, s: State, events: seq<Event>, n: nat, before: seq<Effect>)
    requires Inv(cfg, s) && RunWithin(cfg, s, events, n)
    requires OwnersOnly(before) && forall id <- s.openedBy :: Opened(id, s.openedBy[id]) in before
    ensures OwnersOnly(before + Log(cfg, s, events, n))
    decreases |events|
  {
    hide Inv, Step, OwnersOnly;
    if events == [] {
      assert before + [] == before;
    } else {
      var (s', out) := Step(cfg, s, events[0]);
      StepKeepsInv(cfg, s, events[0]);
      OwnersGrow(cfg, s, events[0]);
      forall f <- out ensures ByOwner(f, before) { assert Justified(cfg, s, f); }
      OwnersAppend(before, out);
      assert forall id <- s'.openedBy :: Opened(id, s'.openedBy[id]) in before + out;
      SessionsKeepTheirOwner(cfg, s', events[1..], n, before + out);
      assert before + out + Log(cfg, s', events[1..], n) == before + Log(cfg, s, events, n);
    }
  }

  /** The effect uses or ends the session. */
  ghost predicate Concerns(f: Effect, id: Id) {
    match f
    case Evicted(entry, _) => entry.id == id
    case Displaced(entry) => entry.id == id
    case Used(x, _) => x == id
    case Deleted(x, _) => x == id
    case Opened(x, _) => x == id
    case Status(_) => false
  }

  lemma UnlistedIsLeftAlone(cfg: Config, s: State, e: Event, id: Id)
    requires Inv(cfg, s) && Enabled(s, e) && id in s.openedBy && !Listed(s.table, id)
    ensures var (s', out) := Step(cfg, s, e);
      id in s'.openedBy && !Listed(s'.table, id) && forall f <- out :: !Concerns(f, id)
  {
    hide WellOrdered, SweepsCover, Ids;
    if e.MakeRoom? && s.table != [] { assert s.table[0] in s.table; }
  }

  /** A session that has left the table never comes up again. */
  lemma {:induction false} UnlistedStaysGone(cfg: Config, s: State, events: seq<Event>, n: nat, id: Id)
    requires Inv(cfg, s) && RunWithin(cfg, s, events, n) && id in s.openedBy && !Listed(s.table, id)
    ensures !Listed(Final(cfg, s, events, n).table, id)
    ensures forall f <- Log(cfg, s, events, n) :: !Concerns(f, id)
    decreases |events|
  {
    hide Inv, Step, Concerns, Listed, Enabled;
    if events != [] {
      UnlistedIsLeftAlone(cfg, s, events[0], id);
      StepKeepsInv(cfg, s, events[0]);
      UnlistedStaysGone(cfg, Step(cfg, s, events[0]).0, events[1..], n, id);
    }
  }

  /** The effect ends a session. */
  ghost predicate Ends(f: Effect, id: Id) {
    (f.Deleted? && f.id == id) || (f.Evicted? && f.entry.id == id) || (f.Displaced? && f.entry.id == id)
  }

  /** Nothing follows the end of a session that concerns it. */
  ghost predicate EndsAreLast(log: seq<Effect>) {
    forall i, j, id :: 0 <= i < j < |log| && Ends(log[i], id) ==> !Concerns(log[j], id)
  }

  lemma OneStepEndsLast(cfg: Config, s: State, e: Event)
    requires Inv(cfg, s) && Enabled(s, e)
    ensures var (s', out) := Step(cfg, s, e);
      && EndsAreLast(out)
      && forall f <- out, id | Ends(f, id) :: id in s'.openedBy && !Listed(s'.table, id)
  {
    EffectsHappen(cfg, s, e);
    StepKeepsInv(cfg, s, e);
    OneEffect(cfg, s, e);
    var (s', out) := Step(cfg, s, e);
    forall f <- out, id | Ends(f, id) ensures id in s'.openedBy && !Listed(s'.table, id) {
      EndedIsGone(cfg, s, s', f, id);
    }
    hide Inv, Step, TakesEffect, Justified, Listed, Enabled;
  }

  /** A step has one effect at most, and a status may follow it. */
  lemma OneEffect(cfg: Config, s: State, e: Event)
    requires Enabled(s, e)
    ensures var (s', out) := Step(cfg, s, e);
      && (out == [] || |out| == 1 || (|out| == 2 && out[1].Status?))
      && forall id <- s.openedBy :: id in s'.openedBy
  {
    hide Remove, Touched, Ids;
  }

  lemma EndedIsGone(cfg: Config, s: State, s': State, f: Effect, id: Id)
    requires TableInv(s.table, s.now, s.openedBy) && Justified(cfg, s, f) && TakesEffect(s, s', f) && Ends(f, id)
    ensures id in s.openedBy && !Listed(s'.table, id)
  {
    hide WellOrdered;
  }

  /** In every run the deletion, eviction or displacement of a session is the last that is heard of it. */
  lemma {:induction false} EndedIsOver(cfg: Config, s: State, events: seq<Event>, n: nat)
    requires Inv(cfg, s) && RunWithin(cfg, s, events, n)
    ensures EndsAreLast(Log(cfg, s, events, n))
    decreases |events|
  {
    hide Inv, Step, Concerns, Ends, Listed, Enabled;
    if events != [] {
      var (s', out) := Step(cfg, s, events[0]);
      var later := Log(cfg, s', events[1..], n);
      OneStepEndsLast(cfg, s, events[0]);
      StepKeepsInv(cfg, s, events[0]);
      EndedIsOver(cfg, s', events[1..], n);
      var log := out + later;
      forall i, j, id | 0 <= i < j < |log| && Ends(log[i], id)
        ensures !Concerns(log[j], id)
      {
        if i < |out| <= j {
          assert out[i] in out;
          UnlistedStaysGone(cfg, s', events[1..], n, id);
          assert later[j - |out|] in later;
        } else if |out| <= i {
          assert log[i] == later[i - |out|] && log[j] == later[j - |out|];
        }
      }
    }
  }

  lemma OwnersGrow(cfg: Config, s: State, e: Event)
    requires Enabled(s, e)
    ensures var (s', out) := Step(cfg, s, e);
      forall id <- s'.openedBy ::
        (id in s.openedBy && s'.openedBy[id] == s.openedBy[id]) || Opened(id, s'.openedBy[id]) in out
  {
    hide Remove, Ids;
  }

  lemma OwnersAppend(before: seq<Effect>, out: seq<Effect>)
    requires OwnersOnly(before) && forall f <- out :: ByOwner(f, before)
    ensures OwnersOnly(before + out)
  {
    var log := before + out;
    forall i | 0 <= i < |log| ensures ByOwner(log[i], log[..i]) {
      if i < |before| {
        assert log[..i] == before[..i];
      } else {
        assert log[i] == out[i - |before|] && out[i - |before|] in out;
        assert log[..i] == before + out[..i - |before|];
      }
    }
  }

  // ----- the cap is met -----

  lemma {:induction false} Extend(cfg: Config, s: State, events: seq<Event>, n: nat, e: Event)
    requires RunWithin(cfg, s, events, n)
    requires Enabled(Final(cfg, s, events, n), e)
    requires |Openings(Step(cfg, Final(cfg, s, events, n), e).0.tasks)| <= n
    ensures RunWithin(cfg, s, events + [e], n)
    ensures Final(cfg, s, events + [e], n) == Step(cfg, Final(cfg, s, events, n), e).0
    decreases |events|
  {
    hide Step, Openings, Enabled;
    if events == [] {
      assert [] + [e] == [e] && [e][1..] == [];
    } else {
      Extend(cfg, Step(cfg, s, events[0]).0, events[1..], n, e);
      assert (events + [e])[1..] == events[1..] + [e];
    }
  }

  const INITIALIZE := Req(None, Some("p"), Post, true)

  lemma Overwrite(tasks: map<Task, Phase>, task: Task, a: Phase, b: Phase)
    ensures var once: map<Task, Phase> := tasks[task := a]; once[task := b] == tasks[task := b]
  {
  }

  /**
   * Sessions 0 to `from` have been opened, the tasks `from` to `to` are opening one each, and those up to `total` have
   * swept and are about to ask for one.
   */
  ghost predicate Shape(s: State, from: nat, to: nat, total: nat) {
    && |s.table| == from && |Openings(s.tasks)| == to - from
    && (forall id <- s.openedBy :: id < from)
    && (forall t :: t in s.tasks <==> from <= t < total)
    && (forall t <- s.tasks :: s.tasks[t] == if t < to then Opening("p") else Routing(INITIALIZE))
  }

  /** A request that asks for a session sweeps while there is none. */
  lemma ArriveShape(cfg: Config, events: seq<Event>, n: nat, total: nat) returns (more: seq<Event>)
    requires RunWithin(cfg, START, events, n) && Shape(Final(cfg, START, events, n), 0, 0, total)
    ensures RunWithin(cfg, START, more, n) && Shape(Final(cfg, START, more, n), 0, 0, total + 1)
  {
    hide RunWithin, Final, Openings;
    var f := Final(cfg, START, events, n);
    var sweeping := StartSweep(cfg, f, INITIALIZE);
    OpeningsAfter(f.tasks, total, sweeping);
    OpeningsAfter(f.tasks, total, Routing(INITIALIZE));
    Overwrite(f.tasks, total, sweeping, Routing(INITIALIZE));
    Extend(cfg, START, events, n, Arrive(total, INITIALIZE));
    more := events + [Arrive(total, INITIALIZE)];
    Extend(cfg, START, more, n, Sweep(total));
    more := more + [Sweep(total)];
  }

  /** It goes through the capacity check. */
  lemma PassShape(cfg: Config, events: seq<Event>, n: nat, from: nat, to: nat, total: nat) returns (more: seq<Event>)
    requires RunWithin(cfg, START, events, n) && from <= to < total && to - from < n && from < cfg.maxSessions
    requires Shape(Final(cfg, START, events, n), from, to, total)
    ensures RunWithin(cfg, START, more, n) && Shape(Final(cfg, START, more, n), from, to + 1, total)
  {
    hide RunWithin, Final, Openings;
    var f := Final(cfg, START, events, n);
    OpeningsAfter(f.tasks, to, MakingRoom("p"));
    OpeningsAfter(f.tasks, to, Opening("p"));
    OpeningsAfter(f.tasks, to, Routing(INITIALIZE));
    assert f.tasks[to := Routing(INITIALIZE)] == f.tasks;
    Overwrite(f.tasks, to, MakingRoom("p"), Opening("p"));
    Extend(cfg, START, events, n, Route(to));
    more := events + [Route(to)];
    Extend(cfg, START, more, n, MakeRoom(to));
    more := more + [MakeRoom(to)];
  }

  /** Its session is entered. */
  lemma InitShape(cfg: Config, events: seq<Event>, n: nat, from: nat, to: nat, total: nat) returns (more: seq<Event>)
    requires RunWithin(cfg, START, events, n) && from < to <= total && to - from <= n
    requires Shape(Final(cfg, START, events, n), from, to, total)
    ensures RunWithin(cfg, START, more, n) && Shape(Final(cfg, START, more, n), from + 1, to, total)
  {
    hide RunWithin, Final;
    OpeningsAfter(Final(cfg, START, events, n).tasks, from, Opening("p"));
    Extend(cfg, START, events, n, Initialized(from, from));
    more := events + [Initialized(from, from)];
  }

  /** For every cap, every degree of overlap and every idle time some run reaches the bound. */
  lemma CapIsMet(cfg: Config, n: nat)
    requires cfg.maxSessions >= 1 && n >= 1
    ensures exists events ::
              RunWithin(cfg, START, events, n) && |Final(cfg, START, events, n).table| == cfg.maxSessions - 1 + n
  {
    hide RunWithin, Final, Shape;
    var events := EmptyRun(cfg, n);
    var k, total := cfg.maxSessions - 1, cfg.maxSessions - 1 + n;
    for t := 0 to total
      invariant RunWithin(cfg, START, events, n) && Shape(Final(cfg, START, events, n), 0, 0, t)
    {
      events := ArriveShape(cfg, events, n, t);
    }
    for i := 0 to k
      invariant RunWithin(cfg, START, events, n) && Shape(Final(cfg, START, events, n), i, i, total)
    {
      events := PassShape(cfg, events, n, i, i, total);
      events := InitShape(cfg, events, n, i, i + 1, total);
    }
    for j := k to total
      invariant RunWithin(cfg, START, events, n) && Shape(Final(cfg, START, events, n), k, j, total)
    {
      events := PassShape(cfg, events, n, k, j, total);
    }
    for i := k to total
      invariant RunWithin(cfg, START, events, n) && Shape(Final(cfg, START, events, n), i, total, total)
    {
      events := InitShape(cfg, events, n, i, total, total);
    }
    ShapeSize(Final(cfg, START, events, n), total, total, total);
  }

  lemma EmptyRun(cfg: Config, n: nat) returns (events: seq<Event>)
    ensures RunWithin(cfg, START, events, n) && Shape(Final(cfg, START, events, n), 0, 0, 0)
  {
    events := [];
    assert Openings(START.tasks) == {};
  }

  lemma ShapeSize(s: State, from: nat, to: nat, total: nat)
    requires Shape(s, from, to, total)
    ensures |s.table| == from
  {
  }

  // ----- the table as the handler changes it -----

  class Sessions {
    var entries: Table
    const maxSessions: nat

    constructor (maxSessions: nat)
      ensures entries == [] && this.maxSessions == maxSessions
    {
      entries := [];
      this.maxSessions := maxSessions;
    }

    /** The session is gone, the others stay in their order, and there is one fewer if it was there. */
    method CloseSession(id: Id)
      requires WellOrdered(entries)
      modifies this`entries
      ensures WellOrdered(entries) && !Has(entries, id) && entries == Remove(old(entries), id)
      ensures if Has(old(entries), id)
        then exists k :: TakesOut(old(entries), id, entries, k)
        else entries == old(entries)
    {
      RemoveKeepsOrder(entries, id);
      ghost var k := RemoveIsExact(entries, id);
      entries := Remove(entries, id);
    }

    method Touch(id: Id, now: int)
      requires Has(entries, id)
      modifies this`entries
      ensures entries == Touched(old(entries), id, now)
    {
      var session := Find(entries, id).(lastUsed := now);
      entries := Remove(entries, id);
      entries := entries + [session];
    }

    /** An uninterrupted sweep removes exactly the idle entries, and they are a prefix. */
    method EvictIdle(now: int, idleMs: int)
      requires WellOrdered(entries)
      modifies this`entries
      ensures WellOrdered(entries)
      ensures exists k :: 0 <= k <= |old(entries)| && entries == old(entries)[k..]
                && (idleMs < 0 ==> k == 0)
                && (idleMs >= 0 ==> forall i :: 0 <= i < |old(entries)| ==>
                      (old(entries)[i].lastUsed <= now - idleMs <==> i < k))
    {
      if idleMs < 0 {
        assert entries == old(entries)[0..];
        return;
      }
      var cutoff := now - idleMs;
      var snapshot, k, i := entries, 0, 0;
      while i < |snapshot|
        invariant 0 <= k <= i <= |snapshot| && entries == snapshot[k..] && WellOrdered(entries)
        invariant forall j :: 0 <= j < i ==> (snapshot[j].lastUsed <= cutoff <==> j < k)
      {
        if snapshot[i].lastUsed <= cutoff {
          if k < i { OrderedByUse(snapshot, k, i); }
          RemoveHead(entries);
          assert snapshot[k..][1..] == snapshot[k + 1..];
          CloseSession(snapshot[i].id);
          k := k + 1;
        }
        i := i + 1;
      }
    }

    /** Room is made by removing the fewest entries from the front. */
    method EvictForCapacity()
      requires WellOrdered(entries) && maxSessions >= 1
      modifies this`entries
      ensures WellOrdered(entries)
      ensures var k := if |old(entries)| < maxSessions then 0 else |old(entries)| - maxSessions + 1;
        entries == old(entries)[k..]
    {
      ghost var k := 0;
      while |entries| >= maxSessions
        invariant 0 <= k <= |old(entries)| && entries == old(entries)[k..] && WellOrdered(entries)
        invariant k == 0 || |entries| >= maxSessions - 1
        decreases |entries|
      {
        RemoveHead(entries);
        assert old(entries)[k..][1..] == old(entries)[k + 1..];
        CloseSession(entries[0].id);
        k := k + 1;
      }
    }
  }

  ghost predicate TakesOut(t: Table, id: Id, rest: Table, k: nat) {
    k < |t| && t[k].id == id && rest == t[..k] + t[k + 1..]
  }

  lemma TakesOutLater(head: Entry, t: Table, id: Id, rest: Table, k: nat)
    requires TakesOut(t, id, rest, k)
    ensures TakesOut([head] + t, id, [head] + rest, k + 1)
  {
  }

  /** Removing takes out the one entry with the id, or nothing. */
  lemma {:induction false} RemoveIsExact(t: Table, id: Id) returns (k: nat)
    requires WellOrdered(t)
    ensures if Has(t, id) then TakesOut(t, id, Remove(t, id), k) else Remove(t, id) == t
  {
    k := 0;
    if t != [] {
      hide TakesOut;
      if t[0].id == id {
        TakesHead(t);
      } else {
        assert t == [t[0]] + t[1..];
        assert Has(t, id) == Has(t[1..], id);
        var later := RemoveIsExact(t[1..], id);
        if Has(t, id) {
          TakesOutLater(t[0], t[1..], id, Remove(t[1..], id), later);
          k := later + 1;
        }
      }
    }
  }

  lemma TakesHead(t: Table)
    requires WellOrdered(t) && t != []
    ensures TakesOut(t, t[0].id, Remove(t, t[0].id), 0)
  {
    RemoveHead(t);
  }

  lemma RemoveHead(t: Table)
    requires WellOrdered(t) && t != []
    ensures Remove(t, t[0].id) == t[1..] && WellOrdered(t[1..])
  {
    RemoveAbsent(t[1..], t[0].id);
  }

  lemma {:induction false} RemoveAbsent(t: Table, id: Id)
    requires !Has(t, id)
    ensures Remove(t, id) == t
  {
    if t != [] {
      RemoveAbsent(t[1..], id);
      assert t == [t[0]] + t[1..];
    }
  }
}
