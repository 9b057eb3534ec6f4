/**
 * Telling clients that the tool or prompt catalog changed: which session can be told, and the debounced emit.
 * All of it is synchronous, so a run is a sequence of calls.
 */
module CatalogNotify {
  import opened Common

  type Server = nat
  type Id = nat

  // ----- delivery state of a session -----

  predicate IsLegacy(version: string) { "2025-" <= version }

  datatype Message =
    | Initialize(version: string)
    | Listen(wants: bool, id: Option<Id>)
    | Cancelled(id: Option<Id>)
    | Other

  datatype Session = Session(listenIds: set<Id>, unsolicited: bool)

  const SILENT := Session({}, false)

  /** `negotiated` is the server's protocol version once it has one; a transport without a server has none. */
  function Apply(session: Session, m: Message, negotiated: Option<string>): Session {
    match m
    case Initialize(version) =>
      if IsLegacy(version) && (negotiated.None? || negotiated.value == "" || IsLegacy(negotiated.value))
      then session.(unsolicited := true) else session
    case Listen(wants, id) =>
      if wants && id.Some? then session.(listenIds := session.listenIds + {id.value}) else session
    case Cancelled(id) =>
      if id.Some? then session.(listenIds := session.listenIds - {id.value}) else session
    case Other => session
  }

  // ----- the process -----

  /** `heard` is the history of the messages on the stdio transport now observed. */
  datatype State = State(
    sessions: map<Server, Session>,
    pending: Option<Session>,
    bound: Option<Server>,
    live: set<Server>,
    versions: map<Server, string>,
    heard: seq<Message>)

  const START := State(map[], None, None, {}, map[], [])

  datatype Event =
    | Observe
    | Note(m: Message, to: Option<Server>)
    | Register(server: Server)
    | Unregister(server: Server)
    | Negotiate(server: Server, version: string)

  function SessionOf(s: State, server: Server): Session {
    if server in s.sessions then s.sessions[server] else SILENT
  }

  function VersionOf(s: State, server: Server): Option<string> {
    if server in s.versions then Some(s.versions[server]) else None
  }

  function Noted(s: State, server: Server, m: Message): State {
    s.(sessions := s.sessions[server := Apply(SessionOf(s, server), m, VersionOf(s, server))])
  }

  function NotedOnStdio(s: State, m: Message): State {
    var held := if s.pending.Some?
      then s.(pending := Some(Apply(s.pending.value, m, None)), heard := s.heard + [m]) else s;
    if s.bound.Some? then Noted(held, s.bound.value, m) else held
  }

  function Binds(s: State): bool { s.pending.Some? && s.bound.None? }

  function Bound(s: State, server: Server): State {
    if !Binds(s) then s
    else
      var own, held := SessionOf(s, server), s.pending.value;
      s.(bound := Some(server),
         sessions := s.sessions[server :=
           Session(own.listenIds + held.listenIds, own.unsolicited || held.unsolicited)])
  }

  function Step(s: State, e: Event): State {
    match e
    case Observe => s.(pending := Some(SILENT), bound := None, heard := [])
    case Note(m, to) => if to.Some? then Noted(s, to.value, m) else NotedOnStdio(s, m)
    case Register(server) => Bound(s.(live := s.live + {server}), server)
    case Unregister(server) =>
      s.(live := s.live - {server}, bound := if s.bound == Some(server) then None else s.bound)
    case Negotiate(server, version) => s.(versions := s.versions[server := version])
  }

  function Run(s: State, events: seq<Event>): State {
    if events == [] then s else Step(Run(s, events[..|events| - 1]), events[|events| - 1])
  }

  /** Whether a list change can reach the client of this server. */
  predicate CanReach(s: State, server: Server) {
    || (VersionOf(s, server).Some? && IsLegacy(VersionOf(s, server).value))
    || (server in s.sessions && s.sessions[server].unsolicited)
    || (server in s.sessions && s.sessions[server].listenIds != {})
    || (s.bound == Some(server) && s.pending.Some? && s.pending.value.listenIds != {})
  }

  // ----- the listen set is the fold of what was heard -----

  function Open(ids: set<Id>, m: Message): set<Id> {
    match m
    case Listen(wants, id) => if wants && id.Some? then ids + {id.value} else ids
    case Cancelled(id) => if id.Some? then ids - {id.value} else ids
    case _ => ids
  }

  /** What is open after a history of messages. */
  function Listening(heard: seq<Message>): set<Id> {
    if heard == [] then {} else Open(Listening(heard[..|heard| - 1]), heard[|heard| - 1])
  }

  lemma HeardOneMore(heard: seq<Message>, m: Message)
    ensures Listening(heard + [m]) == Open(Listening(heard), m)
  {
    assert (heard + [m])[..|heard|] == heard;
  }

  lemma ApplyOpens(session: Session, m: Message, negotiated: Option<string>)
    ensures Apply(session, m, negotiated).listenIds == Open(session.listenIds, m)
  {}

  /** Messages of the stdio transport are not addressed to a server, and HTTP sessions are not the bound server. */
  predicate Proper(s: State, e: Event) { e.Note? && e.to.Some? ==> e.to != s.bound }

  ghost predicate ProperRun(s: State, events: seq<Event>) {
    events == [] ||
    (ProperRun(s, events[..|events| - 1]) && Proper(Run(s, events[..|events| - 1]), events[|events| - 1]))
  }

  /** The transport's own set is the fold of all it heard. */
  ghost predicate Held(s: State) {
    && (s.pending.Some? ==> s.pending.value.listenIds == Listening(s.heard))
    && (s.bound.Some? ==> s.pending.Some?)
  }

  /** And a bound server's set holds at least that. */
  ghost predicate Inv(s: State) {
    Held(s) && (s.bound.Some? ==> Listening(s.heard) <= SessionOf(s, s.bound.value).listenIds)
  }

  lemma StepKeepsHeld(s: State, e: Event)
    requires Held(s)
    ensures Held(Step(s, e))
  {
    hide Apply;
    if e.Note? && e.to.None? && s.pending.Some? {
      HeardOneMore(s.heard, e.m);
      ApplyOpens(s.pending.value, e.m, None);
    }
  }

  lemma StepKeepsInv(s: State, e: Event)
    requires Inv(s) && Proper(s, e)
    ensures Inv(Step(s, e))
  {
    hide Apply, Listening;
    StepKeepsHeld(s, e);
    if e.Note? && e.to.None? && s.bound.Some? {
      HeardOneMore(s.heard, e.m);
      ApplyOpens(SessionOf(s, s.bound.value), e.m, VersionOf(s, s.bound.value));
    }
  }

  lemma {:induction false} RunKeepsInv(s: State, events: seq<Event>)
    requires Inv(s) && ProperRun(s, events)
    ensures Inv(Run(s, events))
  {
    hide Step, Inv, Proper;
    if events != [] {
      RunKeepsInv(s, events[..|events| - 1]);
      StepKeepsInv(Run(s, events[..|events| - 1]), events[|events| - 1]);
    }
  }

  /** What the bound server has beyond what the transport heard. */
  function Stale(s: State): set<Id>
    requires s.bound.Some?
  {
    SessionOf(s, s.bound.value).listenIds - Listening(s.heard)
  }

  /** The bound server listens to exactly what the transport heard. */
  ghost predicate Exact(s: State) {
    s.bound.Some? ==> SessionOf(s, s.bound.value).listenIds == Listening(s.heard)
  }

  /** Binding is exact if and only if the server brings no listen id of its own that the transport does not have. */
  lemma BindingIsExact(s: State, server: Server)
    requires Inv(s) && Binds(s)
    ensures var s' := Step(s, Register(server));
      && s'.bound == Some(server) && s'.heard == s.heard
      && Stale(s') == SessionOf(s, server).listenIds - Listening(s.heard)
      && (Exact(s') <==> SessionOf(s, server).listenIds <= Listening(s.heard))
  {}

  /** The ids a message opens or closes. */
  function Mentions(m: Message): set<Id> {
    match m
    case Listen(wants, id) => if wants && id.Some? then {id.value} else {}
    case Cancelled(id) => if id.Some? then {id.value} else {}
    case _ => {}
  }

  function Mentioned(ms: seq<Message>): set<Id> {
    if ms == [] then {} else Mentioned(ms[..|ms| - 1]) + Mentions(ms[|ms| - 1])
  }

  function OnStdio(ms: seq<Message>): (events: seq<Event>)
    ensures |events| == |ms|
  {
    if ms == [] then [] else OnStdio(ms[..|ms| - 1]) + [Note(ms[|ms| - 1], None)]
  }

  lemma MessageKeeps(s: State, m: Message)
    requires Inv(s) && s.bound.Some?
    ensures var s' := Step(s, Note(m, None));
      && s'.bound == s.bound && s'.heard == s.heard + [m]
      && SessionOf(s', s.bound.value).listenIds == Open(SessionOf(s, s.bound.value).listenIds, m)
      && Stale(s') == Stale(s) - Mentions(m)
  {
    hide Apply, Listening;
    HeardOneMore(s.heard, m);
    ApplyOpens(SessionOf(s, s.bound.value), m, VersionOf(s, s.bound.value));
    OpenSplits(Listening(s.heard), SessionOf(s, s.bound.value).listenIds, m);
  }

  lemma OpenSplits(heard: set<Id>, own: set<Id>, m: Message)
    requires heard <= own
    ensures Open(own, m) - Open(heard, m) == own - heard - Mentions(m)
  {}

  /**
   * After any further messages the bound server listens to the fold of all the transport heard, before and after it
   * was bound, and to those ids it had brought along that no message has mentioned since.
   */
  lemma {:induction false} BoundListens(s: State, ms: seq<Message>)
    requires Inv(s) && s.bound.Some?
    ensures var s' := Run(s, OnStdio(ms));
      && Inv(s') && s'.bound == s.bound && s'.heard == s.heard + ms
      && Stale(s') == Stale(s) - Mentioned(ms)
      && SessionOf(s', s.bound.value).listenIds == Listening(s.heard + ms) + (Stale(s) - Mentioned(ms))
  {
    hide Step, Listening, Mentions, SessionOf;
    if ms == [] {
      assert s.heard + ms == s.heard;
    } else {
      var front, m := ms[..|ms| - 1], ms[|ms| - 1];
      BoundListens(s, front);
      var s1 := Run(s, OnStdio(front));
      assert OnStdio(ms)[..|ms| - 1] == OnStdio(front);
      MessageKeeps(s1, m);
      StepKeepsInv(s1, Note(m, None));
      assert s.heard + ms == s.heard + front + [m];
    }
  }

  /** No event spoils exactness but binding a server with ids of its own, or a note addressed to the bound server. */
  lemma ExactStays(s: State, e: Event)
    requires Inv(s) && Exact(s) && Proper(s, e)
    requires e.Register? && Binds(s) ==> SessionOf(s, e.server).listenIds <= Listening(s.heard)
    ensures Exact(Step(s, e))
  {
    hide Apply, Listening;
    StepKeepsHeld(s, e);
    if e.Note? && e.to.None? && s.bound.Some? {
      HeardOneMore(s.heard, e.m);
      ApplyOpens(SessionOf(s, s.bound.value), e.m, VersionOf(s, s.bound.value));
    }
  }

  /** Every binding in the run is of a server without stale ids, and no note is addressed to the bound server. */
  ghost predicate CleanRun(s: State, events: seq<Event>) {
    events == [] ||
    (var front, e := events[..|events| - 1], events[|events| - 1];
     var before := Run(s, front);
     && CleanRun(s, front) && Proper(before, e)
     && (e.Register? && Binds(before) ==> SessionOf(before, e.server).listenIds <= Listening(before.heard)))
  }

  /** In a clean run the bound server listens to the fold of the whole history, also of what came before it. */
  lemma {:induction false} BoundIsTheFold(events: seq<Event>)
    requires CleanRun(START, events)
    ensures Inv(Run(START, events)) && Exact(Run(START, events))
  {
    hide Step, Inv, Exact, Proper, Listening, Binds, SessionOf;
    if events == [] {
      StartIsExact();
    } else {
      var front, e := events[..|events| - 1], events[|events| - 1];
      BoundIsTheFold(front);
      StepKeepsInv(Run(START, front), e);
      ExactStays(Run(START, front), e);
    }
  }

  lemma StartIsExact()
    ensures Inv(START) && Exact(START)
  {}

  /** A note addressed to the bound server itself is the other way to come apart. */
  lemma AddressedNoteIsNotHeard()
    ensures var s := Step(Step(Step(START, Observe), Register(1)), Note(Listen(true, Some(5)), Some(1)));
      s.bound == Some(1) && !Exact(s)
  {
    var s2 := Step(Step(START, Observe), Register(1));
    var s := Step(s2, Note(Listen(true, Some(5)), Some(1)));
    assert 5 in SessionOf(s, 1).listenIds && s.heard == [];
  }

  /** A server that is registered again may bring a listen the client has closed meanwhile. */
  lemma ReboundServerIsStale()
    ensures var s := Run(START, [Observe, Register(1), Note(Listen(true, Some(5)), None), Unregister(1),
                                 Note(Cancelled(Some(5)), None), Register(1)]);
      s.bound == Some(1) && Listening(s.heard) == {} && SessionOf(s, 1).listenIds == {5} && CanReach(s, 1)
  {
    hide Run, Listening, CanReach, Step;
    var open, close := Note(Listen(true, Some(5)), None), Note(Cancelled(Some(5)), None);
    SixSteps(START, Observe, Register(1), open, Unregister(1), close, Register(1));
    Opening();
    Closing(Step(Step(Step(START, Observe), Register(1)), open));
    StaleBinds(Step(Step(Step(Step(Step(START, Observe), Register(1)), open), Unregister(1)), close));
  }

  lemma Opening()
    ensures var s := Step(Step(Step(START, Observe), Register(1)), Note(Listen(true, Some(5)), None));
      && s.bound == Some(1) && SessionOf(s, 1).listenIds == {5}
      && s.pending.Some? && s.pending.value.listenIds == {5} && s.heard == [Listen(true, Some(5))]
  {
    var s2 := Step(Step(START, Observe), Register(1));
    assert s2.bound == Some(1) && s2.heard == [] && SessionOf(s2, 1).listenIds == s2.pending.value.listenIds == {};
  }

  lemma Closing(s: State)
    requires s.bound == Some(1) && SessionOf(s, 1).listenIds == {5}
    requires s.pending.Some? && s.pending.value.listenIds == {5} && s.heard == [Listen(true, Some(5))]
    ensures var s' := Step(Step(s, Unregister(1)), Note(Cancelled(Some(5)), None));
      && s'.bound == None && SessionOf(s', 1).listenIds == {5} && s'.pending.Some?
      && s'.pending.value.listenIds == {} && Listening(s'.heard) == {}
  {
    HeardOneMore([], Listen(true, Some(5)));
    HeardOneMore([Listen(true, Some(5))], Cancelled(Some(5)));
    assert [] + [Listen(true, Some(5))] == [Listen(true, Some(5))];
  }

  lemma SixSteps(s: State, a: Event, b: Event, c: Event, d: Event, e: Event, f: Event)
    ensures Run(s, [a, b, c, d, e, f]) == Step(Step(Step(Step(Step(Step(s, a), b), c), d), e), f)
  {
    hide Step, Run;
    RunSnoc(s, [], a);
    RunSnoc(s, [a], b);
    RunSnoc(s, [a, b], c);
    RunSnoc(s, [a, b, c], d);
    RunSnoc(s, [a, b, c, d], e);
    RunSnoc(s, [a, b, c, d, e], f);
    assert [] + [a] == [a] && [a] + [b] == [a, b] && [a, b] + [c] == [a, b, c];
    assert [a, b, c] + [d] == [a, b, c, d] && [a, b, c, d] + [e] == [a, b, c, d, e];
    assert [a, b, c, d, e] + [f] == [a, b, c, d, e, f];
  }

  lemma StaleBinds(s: State)
    requires s.pending.Some? && s.bound.None? && SessionOf(s, 1).listenIds == {5}
    requires s.pending.value.listenIds == {}
    ensures var s' := Step(s, Register(1));
      s'.bound == Some(1) && s'.heard == s.heard && SessionOf(s', 1).listenIds == {5} && CanReach(s', 1)
  {
    assert {5} + {} == {5};
  }

  lemma RunSnoc(s: State, events: seq<Event>, e: Event)
    ensures Run(s, events + [e]) == Step(Run(s, events), e)
    ensures Run(s, []) == s
  {
    assert (events + [e])[..|events|] == events;
  }

  // ----- sessions do not affect each other -----

  /** The one server an event is about. */
  ghost predicate IsAbout(s: State, e: Event, server: Server) {
    match e
    case Observe => false
    case Note(_, to) => if to.Some? then to == Some(server) else s.bound == Some(server)
    case Register(x) => x == server
    case Unregister(x) => x == server
    case Negotiate(x, _) => x == server
  }

  /** No other event is about a server: what names it, and an unaddressed message when it is bound to the transport. */
  lemma AboutExactly(s: State, e: Event, server: Server)
    ensures IsAbout(s, e, server) <==>
              || (e.Note? && e.to == Some(server)) || (e.Note? && e.to == None && s.bound == Some(server))
              || e == Register(server) || e == Unregister(server) || (e.Negotiate? && e.server == server)
  {}

  /** The last that was heard of a server is its registration. */
  ghost predicate IsRegistered(events: seq<Event>, server: Server) {
    events != [] &&
    var last := events[|events| - 1];
    last == Register(server) || (last != Unregister(server) && IsRegistered(events[..|events| - 1], server))
  }

  /** After any run exactly the registered servers are live. */
  lemma {:induction false} LiveAreRegistered(events: seq<Event>, server: Server)
    ensures server in Run(START, events).live <==> IsRegistered(events, server)
  {
    hide Apply;
    if events != [] { LiveAreRegistered(events[..|events| - 1], server); }
  }

  /** An event changes nothing for any server it is not about. */
  lemma OthersAreUnaffected(s: State, e: Event, server: Server)
    requires Inv(s) && !IsAbout(s, e, server)
    ensures CanReach(Step(s, e), server) <==> CanReach(s, server)
    ensures SessionOf(Step(s, e), server) == SessionOf(s, server)
  {}

  ghost predicate NeverAbout(s: State, events: seq<Event>, server: Server) {
    events == [] ||
    (NeverAbout(s, events[..|events| - 1], server)
     && !IsAbout(Run(s, events[..|events| - 1]), events[|events| - 1], server))
  }

  /** A session that is never addressed keeps its answer, whatever the others negotiate or listen to. */
  lemma {:induction false} AnswerIsOwn(s: State, events: seq<Event>, server: Server)
    requires Inv(s) && ProperRun(s, events) && NeverAbout(s, events, server)
    ensures CanReach(Run(s, events), server) <==> CanReach(s, server)
  {
    hide CanReach, Step, Inv, IsAbout, Proper;
    if events != [] {
      var front := events[..|events| - 1];
      AnswerIsOwn(s, front, server);
      RunKeepsInv(s, front);
      OthersAreUnaffected(Run(s, front), events[|events| - 1], server);
    }
  }

  // ----- a modern server is not turned back -----

  predicate IsModernVersion(version: string) { version != "" && !IsLegacy(version) }

  predicate IsModern(s: State, server: Server) {
    VersionOf(s, server).Some? && IsModernVersion(VersionOf(s, server).value)
  }

  predicate Downgrades(e: Event, server: Server) {
    e.Negotiate? && e.server == server && !IsModernVersion(e.version)
  }

  /** The server is bound while the transport holds an old-style initialize. */
  predicate TakesOver(s: State, e: Event, server: Server) {
    e == Register(server) && Binds(s) && s.pending.value.unsolicited
  }

  predicate EverTakesOver(s: State, events: seq<Event>, server: Server) {
    events != [] &&
    (EverTakesOver(s, events[..|events| - 1], server)
     || TakesOver(Run(s, events[..|events| - 1]), events[|events| - 1], server))
  }

  lemma ModernStep(s: State, e: Event, server: Server)
    requires IsModern(s, server) && !Downgrades(e, server)
    ensures IsModern(Step(s, e), server)
    ensures SessionOf(Step(s, e), server).unsolicited
      <==> SessionOf(s, server).unsolicited || TakesOver(s, e, server)
  {}

  /**
   * Over any run in which a server keeps a modern version, no initialize makes it unsolicited, its own or another's;
   * it becomes so exactly by being bound to a transport that holds an old-style initialize.
   */
  lemma {:induction false} ModernStaysModern(s: State, events: seq<Event>, server: Server)
    requires IsModern(s, server) && forall e <- events :: !Downgrades(e, server)
    ensures var s' := Run(s, events);
      && IsModern(s', server)
      && (SessionOf(s', server).unsolicited
          <==> SessionOf(s, server).unsolicited || EverTakesOver(s, events, server))
  {
    hide Step, IsModern, Downgrades, TakesOver, SessionOf;
    if events != [] {
      var front := events[..|events| - 1];
      ModernStaysModern(s, front, server);
      ModernStep(Run(s, front), events[|events| - 1], server);
    }
  }

  /** Binding passes an old-style initialize on to a modern server, which then counts as reachable without a listen. */
  lemma ModernServerTakesOver(server: Server, modern: string)
    requires IsModernVersion(modern)
    ensures
      var held := Step(Step(Step(START, Negotiate(server, modern)), Observe), Note(Initialize("2025-11-25"), None));
      var s := Step(held, Register(server));
      IsModern(s, server) && SessionOf(s, server) == Session({}, true) && CanReach(s, server)
  {
    var s2 := Step(Step(START, Negotiate(server, modern)), Observe);
    assert IsLegacy("2025-11-25");
    var held := Step(s2, Note(Initialize("2025-11-25"), None));
    assert held.pending == Some(Session({}, true)) && held.bound == None && held.sessions == map[];
    assert held.versions == s2.versions && VersionOf(held, server) == Some(modern);
    hide IsLegacy;
    assert Session({}, true).listenIds + {} == {};
  }

  // ----- when a session can be reached, by its history -----

  /** A protocol version that delivers unsolicited changes. */
  predicate IsOldStyle(version: string) { |version| >= 5 && version[..5] == "2025-" }

  /** What was heard on the transport since it was last observed; none if it never was. */
  function OnTransport(events: seq<Event>): Option<seq<Message>> {
    if events == [] then None
    else
      var before := OnTransport(events[..|events| - 1]);
      match events[|events| - 1]
      case Observe => Some([])
      case Note(m, None) => if before.Some? then Some(before.value + [m]) else None
      case _ => before
  }

  /** The server the transport is bound to: the first to register on it, until it unregisters. */
  function BoundBy(events: seq<Event>): Option<Server> {
    if events == [] then None
    else
      var before := BoundBy(events[..|events| - 1]);
      match events[|events| - 1]
      case Observe => None
      case Register(x) => if before.None? && OnTransport(events[..|events| - 1]).Some? then Some(x) else before
      case Unregister(x) => if before == Some(x) then None else before
      case _ => before
  }

  function LastVersion(events: seq<Event>, server: Server): Option<string> {
    if events == [] then None
    else
      match events[|events| - 1]
      case Negotiate(x, version) => if x == server then Some(version) else LastVersion(events[..|events| - 1], server)
      case _ => LastVersion(events[..|events| - 1], server)
  }

  /** The message reaches the server: it names it, or comes on the transport the server is bound to. */
  predicate Reaches(before: seq<Event>, e: Event, server: Server) {
    e.Note? && (e.to == Some(server) || (e.to == None && BoundBy(before) == Some(server)))
  }

  /** The registration binds the server to the observed transport. */
  predicate Takes(before: seq<Event>, e: Event, server: Server) {
    e == Register(server) && BoundBy(before) == None && OnTransport(before).Some?
  }

  /** The listens open for a server. */
  function OpenFor(events: seq<Event>, server: Server): set<Id> {
    if events == [] then {}
    else
      var before, e := events[..|events| - 1], events[|events| - 1];
      if Takes(before, e, server) then OpenFor(before, server) + Listening(OnTransport(before).value)
      else if !Reaches(before, e, server) then OpenFor(before, server)
      else
        match e.m
        case Listen(true, Some(id)) => OpenFor(before, server) + {id}
        case Cancelled(Some(id)) => OpenFor(before, server) - {id}
        case _ => OpenFor(before, server)
  }

  predicate HeardOldStyle(heard: seq<Message>) { exists m <- heard :: m.Initialize? && IsOldStyle(m.version) }

  /** The server is sent changes unsolicited: an old-style initialize came with no modern version, or is taken over. */
  function SentUnsolicited(events: seq<Event>, server: Server): bool {
    events != [] &&
    var before, e := events[..|events| - 1], events[|events| - 1];
    || SentUnsolicited(before, server)
    || (Takes(before, e, server) && HeardOldStyle(OnTransport(before).value))
    || (&& Reaches(before, e, server) && e.m.Initialize? && IsOldStyle(e.m.version)
        && var version := LastVersion(before, server);
           version == None || version == Some("") || IsOldStyle(version.value))
  }

  /** The state tells the history. */
  ghost predicate Tells(s: State, events: seq<Event>, server: Server) {
    && TellsTransport(s, events)
    && (server in s.versions <==> LastVersion(events, server).Some?)
    && (server in s.versions ==> Some(s.versions[server]) == LastVersion(events, server))
    && SessionOf(s, server) == Session(OpenFor(events, server), SentUnsolicited(events, server))
  }

  ghost predicate TellsTransport(s: State, events: seq<Event>) {
    && (s.pending.Some? <==> OnTransport(events).Some?)
    && (s.pending.Some? ==>
          && s.pending.value.listenIds == Listening(OnTransport(events).value)
          && (s.pending.value.unsolicited <==> HeardOldStyle(OnTransport(events).value)))
    && s.bound == BoundBy(events)
    && (s.bound.Some? ==> s.pending.Some?)
  }

  lemma OldStyleIsLegacy(version: string)
    ensures IsOldStyle(version) <==> IsLegacy(version)
  {}

  lemma HeardOneMoreOldStyle(heard: seq<Message>, m: Message)
    ensures HeardOldStyle(heard + [m]) <==> HeardOldStyle(heard) || (m.Initialize? && IsOldStyle(m.version))
  {
    hide IsOldStyle;
    assert forall x :: x in heard + [m] <==> x in heard || x == m;
  }

  lemma StepTells(s: State, events: seq<Event>, server: Server)
    requires events != [] && Tells(s, events[..|events| - 1], server)
    ensures Tells(Step(s, events[|events| - 1]), events, server)
  {
    match events[|events| - 1]
    case Note(_, _) => NoteTells(s, events, server);
    case Register(_) => RegisterTells(s, events, server);
    case Observe =>
      NothingHeard();
      hide IsLegacy, IsOldStyle, Listening, HeardOldStyle;
    case _ => hide IsLegacy, IsOldStyle, Listening, HeardOldStyle;
  }

  lemma RegisterTells(s: State, events: seq<Event>, server: Server)
    requires events != [] && events[|events| - 1].Register? && Tells(s, events[..|events| - 1], server)
    ensures Tells(Step(s, events[|events| - 1]), events, server)
  {
    hide IsLegacy, IsOldStyle, Listening, HeardOldStyle;
    var before := events[..|events| - 1];
    if BoundBy(before) == None && OnTransport(before).Some? { assert Binds(s); }
  }

  /** What a message does to a session that hears it. */
  lemma ApplyIsExact(session: Session, m: Message, version: Option<string>)
    ensures Apply(session, m, version) == Session(
      match m
      case Listen(true, Some(id)) => session.listenIds + {id}
      case Cancelled(Some(id)) => session.listenIds - {id}
      case _ => session.listenIds,
      session.unsolicited || (m.Initialize? && IsOldStyle(m.version)
        && (version == None || version == Some("") || IsOldStyle(version.value))))
  {
    if m.Initialize? { OldStyleIsLegacy(m.version); }
    if version.Some? { OldStyleIsLegacy(version.value); }
    hide IsLegacy, IsOldStyle;
  }

  lemma NoteTellsTransport(s: State, events: seq<Event>)
    requires events != [] && events[|events| - 1].Note? && TellsTransport(s, events[..|events| - 1])
    ensures TellsTransport(Step(s, events[|events| - 1]), events)
  {
    var before, e := events[..|events| - 1], events[|events| - 1];
    if s.pending.Some? {
      ApplyIsExact(s.pending.value, e.m, None);
      HeardOneMore(OnTransport(before).value, e.m);
      HeardOneMoreOldStyle(OnTransport(before).value, e.m);
    }
    hide IsLegacy, IsOldStyle, Listening, HeardOldStyle, Apply;
  }

  lemma NoteReaches(s: State, e: Event, server: Server)
    requires e.Note?
    ensures var hears := e.to == Some(server) || (e.to == None && s.bound == Some(server));
      SessionOf(Step(s, e), server)
      == if hears then Apply(SessionOf(s, server), e.m, VersionOf(s, server)) else SessionOf(s, server)
    ensures Step(s, e).versions == s.versions
  {
    hide Apply;
  }

  lemma NoteTells(s: State, events: seq<Event>, server: Server)
    requires events != [] && events[|events| - 1].Note? && Tells(s, events[..|events| - 1], server)
    ensures Tells(Step(s, events[|events| - 1]), events, server)
  {
    var e := events[|events| - 1];
    NoteTellsTransport(s, events);
    NoteReaches(s, e, server);
    ApplyIsExact(SessionOf(s, server), e.m, VersionOf(s, server));
    hide IsLegacy, IsOldStyle, Apply, Step, OnTransport, BoundBy, SessionOf;
  }

  lemma NothingHeard()
    ensures Listening([]) == {} && !HeardOldStyle([])
  {}

  lemma {:induction false} RunTells(events: seq<Event>, server: Server)
    ensures Tells(Run(START, events), events, server)
  {
    hide Step, Tells;
    if events == [] {
      StartTells(server);
    } else {
      RunTells(events[..|events| - 1], server);
      StepTells(Run(START, events[..|events| - 1]), events, server);
    }
  }

  lemma StartTells(server: Server)
    ensures Tells(START, [], server)
  {}

  /**
   * After any run a change reaches a session exactly if its last version is an old one, it is sent changes unsolicited,
   * it has an open listen, or it is bound to the transport and that has one.
   */
  lemma ReachIsExact(events: seq<Event>, server: Server)
    ensures CanReach(Run(START, events), server) <==>
      || (LastVersion(events, server).Some? && IsOldStyle(LastVersion(events, server).value))
      || SentUnsolicited(events, server) || OpenFor(events, server) != {}
      || (BoundBy(events) == Some(server) && OnTransport(events).Some? && Listening(OnTransport(events).value) != {})
  {
    RunTells(events, server);
    if LastVersion(events, server).Some? { OldStyleIsLegacy(LastVersion(events, server).value); }
    hide Run, IsLegacy, IsOldStyle, Listening, LastVersion, SentUnsolicited, OpenFor, BoundBy, OnTransport;
  }

  // ----- the debounced emit -----

  datatype Change = Change(tools: bool, prompts: bool)

  const NO_CHANGE := Change(false, false)

  function Both(a: Change, b: Change): Change { Change(a.tools || b.tools, a.prompts || b.prompts) }

  /** `armed` are the timers that will fire, `timer` the one that is remembered. */
  datatype Debounce = Debounce(pending: Change, timer: Option<nat>, armed: set<nat>, created: nat)

  const IDLE := Debounce(NO_CHANGE, None, {}, 0)

  datatype Call = Emit(change: Change) | Flush | Fires(timer: nat)

  predicate Enabled(d: Debounce, c: Call) { c.Fires? ==> c.timer in d.armed }

  function Flushed(d: Debounce): (Debounce, Option<Change>) {
    var calm := d.(timer := None, armed := if d.timer.Some? then d.armed - {d.timer.value} else d.armed);
    if d.pending == NO_CHANGE then (calm, None) else (calm.(pending := NO_CHANGE), Some(d.pending))
  }

  function Do(d: Debounce, c: Call): (Debounce, Option<Change>) {
    match c
    case Emit(change) =>
      if change == NO_CHANGE then (d, None)
      else if d.timer.Some? then (d.(pending := Both(d.pending, change)), None)
      else (Debounce(Both(d.pending, change), Some(d.created), d.armed + {d.created}, d.created + 1), None)
    case Flush => Flushed(d)
    case Fires(timer) => Flushed(d.(timer := None, armed := d.armed - {timer}))
  }

  predicate CanDo(d: Debounce, calls: seq<Call>) {
    calls == [] || (CanDo(d, calls[..|calls| - 1]) && Enabled(After(d, calls[..|calls| - 1]), calls[|calls| - 1]))
  }

  function After(d: Debounce, calls: seq<Call>): Debounce {
    if calls == [] then d else Do(After(d, calls[..|calls| - 1]), calls[|calls| - 1]).0
  }

  /** The kinds emitted since the last flush or firing. */
  function Since(calls: seq<Call>): Change {
    if calls == [] then NO_CHANGE
    else
      match calls[|calls| - 1]
      case Emit(change) => Both(Since(calls[..|calls| - 1]), change)
      case _ => NO_CHANGE
  }

  /** A timer runs exactly while something is pending, and never two. */
  predicate OneTimer(d: Debounce) {
    && (d.timer.Some? <==> d.pending != NO_CHANGE)
    && d.armed == (if d.timer.Some? then {d.timer.value} else {})
    && (d.timer.Some? ==> d.timer.value < d.created)
  }

  lemma DoKeepsOneTimer(d: Debounce, c: Call)
    requires OneTimer(d) && Enabled(d, c)
    ensures OneTimer(Do(d, c).0)
    ensures Do(d, c).0.pending == if c.Emit? then Both(d.pending, c.change) else NO_CHANGE
    ensures Do(d, c).1 == if c.Emit? || d.pending == NO_CHANGE then None else Some(d.pending)
  {}

  /** In every run one timer at most is armed, and what is pending is what was emitted since the last dispatch. */
  lemma {:induction false} PendingIsEmitted(calls: seq<Call>)
    requires CanDo(IDLE, calls)
    ensures OneTimer(After(IDLE, calls)) && |After(IDLE, calls).armed| <= 1
    ensures After(IDLE, calls).pending == Since(calls)
  {
    hide Do;
    if calls != [] {
      PendingIsEmitted(calls[..|calls| - 1]);
      DoKeepsOneTimer(After(IDLE, calls[..|calls| - 1]), calls[|calls| - 1]);
    }
  }

  /** A flush or a firing dispatches one event with exactly the kinds emitted since the last one, if there are any. */
  lemma DispatchIsUnion(calls: seq<Call>, c: Call)
    requires CanDo(IDLE, calls) && Enabled(After(IDLE, calls), c) && !c.Emit?
    ensures Do(After(IDLE, calls), c).1 == if Since(calls) == NO_CHANGE then None else Some(Since(calls))
  {
    hide Do;
    PendingIsEmitted(calls);
    DoKeepsOneTimer(After(IDLE, calls), c);
  }

  // ----- as it runs -----

  class Catalog {
    var sessions: map<Server, Session>
    var stdioPending: Option<Session>
    var stdioBoundServer: Option<Server>
    var liveServers: set<Server>
    var versions: map<Server, string>
    ghost var heard: seq<Message>

    ghost function Now(): State
      reads this
    {
      State(sessions, stdioPending, stdioBoundServer, liveServers, versions, heard)
    }

    constructor ()
      ensures Now() == START
    {
      sessions, stdioPending, stdioBoundServer, liveServers, versions, heard := map[], None, None, {}, map[], [];
    }

    method ApplyMessage(session: Session, m: Message, negotiated: Option<string>) returns (r: Session)
      ensures r == Apply(session, m, negotiated)
    {
      r := session;
      if m.Initialize? {
        if IsLegacy(m.version) {
          if negotiated.None? || negotiated.value == "" || IsLegacy(negotiated.value) {
            r := r.(unsolicited := true);
          }
        }
        return;
      }
      if m.Listen? {
        if m.wants && m.id.Some? { r := r.(listenIds := r.listenIds + {m.id.value}); }
        return;
      }
      if m.Cancelled? {
        if m.id.Some? { r := r.(listenIds := r.listenIds - {m.id.value}); }
      }
    }

    method NoteFor(server: Server, m: Message)
      modifies this
      ensures Now() == Noted(old(Now()), server, m)
    {
      var session := if server in sessions then sessions[server] else SILENT;
      session := ApplyMessage(session, m, if server in versions then Some(versions[server]) else None);
      sessions := sessions[server := session];
    }

    method NoteInbound(m: Message, server: Option<Server>)
      modifies this
      ensures Now() == Step(old(Now()), Note(m, server))
    {
      if server.Some? {
        NoteFor(server.value, m);
        return;
      }
      if stdioPending.Some? {
        var held := ApplyMessage(stdioPending.value, m, None);
        stdioPending := Some(held);
        heard := heard + [m];
      }
      if stdioBoundServer.Some? { NoteFor(stdioBoundServer.value, m); }
    }

    method ObserveStdio()
      modifies this
      ensures Now() == Step(old(Now()), Observe)
    {
      stdioPending, stdioBoundServer, heard := Some(SILENT), None, [];
    }

    method RegisterLive(server: Server)
      modifies this
      ensures Now() == Step(old(Now()), Register(server))
    {
      liveServers := liveServers + {server};
      BindStdioPending(server);
    }

    method BindStdioPending(server: Server)
      modifies this
      ensures Now() == Bound(old(Now()), server)
    {
      if stdioPending.None? || stdioBoundServer.Some? { return; }
      stdioBoundServer := Some(server);
      var session := if server in sessions then sessions[server] else SILENT;
      session := session.(listenIds := session.listenIds + stdioPending.value.listenIds);
      if stdioPending.value.unsolicited { session := session.(unsolicited := true); }
      sessions := sessions[server := session];
    }

    method UnregisterLive(server: Server)
      modifies this
      ensures Now() == Step(old(Now()), Unregister(server))
    {
      liveServers := liveServers - {server};
      if stdioBoundServer == Some(server) { stdioBoundServer := None; }
    }
  }

  class Notifier {
    var pendingTools: bool
    var pendingPrompts: bool
    var debounceTimer: Option<nat>
    var armed: set<nat>
    var created: nat

    ghost function Now(): Debounce
      reads this
    {
      Debounce(Change(pendingTools, pendingPrompts), debounceTimer, armed, created)
    }

    constructor ()
      ensures Now() == IDLE
    {
      pendingTools, pendingPrompts, debounceTimer, armed, created := false, false, None, {}, 0;
    }

    method Emit(change: Change)
      modifies this
      ensures Now() == Do(old(Now()), Call.Emit(change)).0
    {
      if !change.tools && !change.prompts { return; }
      pendingTools := pendingTools || change.tools;
      pendingPrompts := pendingPrompts || change.prompts;
      if debounceTimer.Some? { return; }
      debounceTimer := Some(created);
      armed := armed + {created};
      created := created + 1;
    }

    method Flush() returns (event: Option<Change>)
      modifies this
      ensures (Now(), event) == Do(old(Now()), Call.Flush)
    {
      if debounceTimer.Some? {
        armed := armed - {debounceTimer.value};
        debounceTimer := None;
      }
      if !pendingTools && !pendingPrompts { return None; }
      event := Some(Change(pendingTools, pendingPrompts));
      pendingTools, pendingPrompts := false, false;
    }

    method TimerFires(timer: nat) returns (event: Option<Change>)
      requires timer in armed
      modifies this
      ensures (Now(), event) == Do(old(Now()), Fires(timer))
    {
      armed := armed - {timer};
      debounceTimer := None;
      event := Flush();
    }
  }
}
