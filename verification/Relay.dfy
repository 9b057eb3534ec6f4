/**
 * The laboratory relay: agents dial in with a revocable token, and northbound requests wait for the answer
 * that comes back on the agent's channel. Each event is handled to the end before the next one.
 */
module Relay {
  import opened Common

  type Socket = nat
  type Id = nat
  type Token = string

  datatype Identity = Identity(sub: string, clientId: string, tenant: string)

  // ----- credentials -----

  datatype Credential = Credential(token: Token, identity: Identity, revoked: bool)

  predicate IsLabToken(token: Token) { "lab-" <= token }

  function Lookup(issued: seq<Credential>, token: Token): (found: Option<Credential>)
    ensures found.Some? ==> found.value.token == token
  {
    if issued == [] || !IsLabToken(token) then None
    else if issued[0].token == token then Some(issued[0])
    else Lookup(issued[1..], token)
  }

  function Revoked(issued: seq<Credential>, identity: Identity): (after: seq<Credential>)
    ensures |after| == |issued|
    ensures forall i :: 0 <= i < |issued| ==>
              after[i] == if issued[i].identity == identity then issued[i].(revoked := true) else issued[i]
  {
    if issued == [] then []
    else
      [if issued[0].identity == identity then issued[0].(revoked := true) else issued[0]]
      + Revoked(issued[1..], identity)
  }

  /** The credential at this place is the first one issued under its token. */
  ghost predicate IsFirst(issued: seq<Credential>, i: nat) {
    i < |issued| && forall j :: 0 <= j < i ==> issued[j].token != issued[i].token
  }

  /** What is found is the first credential issued under the token, and only lab tokens find anything. */
  lemma {:induction false} LookupIsFirst(issued: seq<Credential>, token: Token, i: nat)
    requires i < |issued| && issued[i].token == token
    ensures "lab-" <= token && IsFirst(issued, i) ==> Lookup(issued, token) == Some(issued[i])
    ensures !("lab-" <= token) ==> Lookup(issued, token) == None
  {
    if i > 0 && issued[0].token != token { LookupIsFirst(issued[1..], token, i - 1); }
  }

  lemma {:induction false} LookupFindsIssued(issued: seq<Credential>, token: Token)
    ensures Lookup(issued, token).Some? <==> "lab-" <= token && exists c <- issued :: c.token == token
  {
    if issued != [] {
      LookupFindsIssued(issued[1..], token);
      assert issued == [issued[0]] + issued[1..];
    }
  }

  /** Revoking marks every token of the identity, and touches no other. */
  lemma {:induction false} LookupAfterRevoke(issued: seq<Credential>, identity: Identity, token: Token)
    ensures Lookup(Revoked(issued, identity), token) ==
            match Lookup(issued, token)
            case None => None
            case Some(c) => Some(if c.identity == identity then c.(revoked := true) else c)
  {
    if issued != [] {
      LookupAfterRevoke(issued[1..], identity, token);
      assert Revoked(issued, identity)[1..] == Revoked(issued[1..], identity);
    }
  }

  /** A token already issued is not affected by a later one. */
  lemma {:induction false} LookupAfterIssue(issued: seq<Credential>, c: Credential, token: Token)
    requires IsLabToken(c.token)
    ensures Lookup(issued + [c], token) ==
            if Lookup(issued, token).Some? then Lookup(issued, token)
            else if c.token == token then Some(c) else None
  {
    if issued == [] {
      assert issued + [c] == [c] && [c][1..] == [];
    } else {
      LookupAfterIssue(issued[1..], c, token);
      assert (issued + [c])[1..] == issued[1..] + [c];
    }
  }

  // ----- the relay -----

  datatype Session = Session(socket: Socket, identity: Identity, token: Token)

  /** `pending` is in insertion order; `dispatched` is the history of all request ids. */
  datatype State = State(
    issued: seq<Credential>,
    session: Option<Session>,
    pending: seq<Id>,
    timers: set<Id>,
    dispatched: set<Id>)

  const START := State([], None, [], {}, {})

  /** `targetResolved` tells whether the target relay found a target for the session's identity. */
  datatype Event =
    | Issue(token: Token, identity: Identity)
    | Revoke(identity: Identity)
    | Hello(socket: Socket, token: Token)
    | Response(socket: Socket, id: Id, body: string)
    | Closed(socket: Socket)
    | Northbound(id: Id, targetResolved: bool)
    | Timeout(id: Id)

  datatype Outcome = Responded(body: string) | TimedOut | ChannelClosed

  datatype Effect =
    | Denied(socket: Socket, reason: string)
    | HelloOk(socket: Socket, identity: Identity)
    | Destroyed(socket: Socket)
    | RequestFrame(socket: Socket, token: Token, id: Id)
    | Answered(status: int)
    | Settled(id: Id, outcome: Outcome)

  /** Request ids are random, so new; a timer fires only while it is set. */
  predicate Enabled(s: State, e: Event) {
    match e
    case Issue(token, _) => IsLabToken(token)
    case Northbound(id, _) => id !in s.dispatched
    case Timeout(id) => id in s.timers
    case _ => true
  }

  function Without(ids: seq<Id>, id: Id): (rest: seq<Id>)
    ensures forall x :: x in rest <==> x in ids && x != id
  {
    if ids == [] then []
    else if ids[0] == id then Without(ids[1..], id)
    else [ids[0]] + Without(ids[1..], id)
  }

  function CloseAll(ids: seq<Id>): seq<Effect> {
    if ids == [] then [] else [Settled(ids[0], ChannelClosed)] + CloseAll(ids[1..])
  }

  function OnHello(s: State, socket: Socket, token: Token): (State, seq<Effect>) {
    match Lookup(s.issued, token)
    case None => (s, [Denied(socket, "unauthenticated")])
    case Some(c) =>
      if c.revoked then (s, [Denied(socket, "revoked")])
      else
        var drop := if s.session.Some? && s.session.value.socket != socket
          then [Destroyed(s.session.value.socket)] else [];
        (s.(session := Some(Session(socket, c.identity, c.token))), drop + [HelloOk(socket, c.identity)])
  }

  function OnNorthbound(s: State, id: Id, targetResolved: bool): (State, seq<Effect>) {
    var record := if s.session.Some? then Lookup(s.issued, s.session.value.token) else None;
    if record.Some? && record.value.revoked then (s, [Answered(403)])
    else if record.None? then (s, [Answered(503)])
    else if !targetResolved then (s, [Answered(502)])
    else
      (s.(pending := s.pending + [id], timers := s.timers + {id}, dispatched := s.dispatched + {id}),
       [RequestFrame(s.session.value.socket, s.session.value.token, id)])
  }

  function Settle(s: State, id: Id, outcome: Outcome): (State, seq<Effect>) {
    (s.(pending := Without(s.pending, id), timers := s.timers - {id}), [Settled(id, outcome)])
  }

  function OnClosed(s: State, socket: Socket): (State, seq<Effect>) {
    var session := if s.session.Some? && s.session.value.socket == socket then None else s.session;
    (s.(session := session, pending := [], timers := s.timers - (set id <- s.pending)), CloseAll(s.pending))
  }

  function Step(s: State, e: Event): (State, seq<Effect>)
    requires Enabled(s, e)
  {
    match e
    case Issue(token, identity) => (s.(issued := s.issued + [Credential(token, identity, false)]), [])
    case Revoke(identity) => (s.(issued := Revoked(s.issued, identity)), [])
    case Hello(socket, token) => OnHello(s, socket, token)
    case Response(_, id, body) => if id in s.pending then Settle(s, id, Responded(body)) else (s, [])
    case Closed(socket) => OnClosed(s, socket)
    case Northbound(id, targetResolved) => OnNorthbound(s, id, targetResolved)
    case Timeout(id) => Settle(s, id, TimedOut)
  }

  ghost predicate Run(s: State, events: seq<Event>)
    decreases |events|
  {
    events != [] ==> Enabled(s, events[0]) && Run(Step(s, events[0]).0, events[1..])
  }

  function Final(s: State, events: seq<Event>): State
    requires Run(s, events)
    decreases |events|
  {
    if events == [] then s else Final(Step(s, events[0]).0, events[1..])
  }

  function Log(s: State, events: seq<Event>): seq<Effect>
    requires Run(s, events)
    decreases |events|
  {
    if events == [] then [] else Step(s, events[0]).1 + Log(Step(s, events[0]).0, events[1..])
  }

  // ----- every waiter is settled once -----

  /** How often a waiter was settled. */
  function Settlements(log: seq<Effect>, id: Id): nat {
    if log == [] then 0
    else (if log[0].Settled? && log[0].id == id then 1 else 0) + Settlements(log[1..], id)
  }

  lemma {:induction false} SettlementsAppend(a: seq<Effect>, b: seq<Effect>, id: Id)
    ensures Settlements(a + b, id) == Settlements(a, id) + Settlements(b, id)
  {
    if a == [] {
      assert a + b == b;
    } else {
      SettlementsAppend(a[1..], b, id);
      assert (a + b)[1..] == a[1..] + b;
    }
  }

  ghost predicate Distinct(ids: seq<Id>) { forall i, j :: 0 <= i < j < |ids| ==> ids[i] != ids[j] }

  /** The pending map is exactly the set of unsettled waiters, and each of them has its timer. */
  ghost predicate Inv(s: State) {
    && Distinct(s.pending)
    && s.timers == (set id <- s.pending)
    && s.timers <= s.dispatched
  }

  lemma {:induction false} CloseAllSettles(ids: seq<Id>, id: Id)
    requires Distinct(ids)
    ensures Settlements(CloseAll(ids), id) == if id in ids then 1 else 0
  {
    if ids != [] {
      CloseAllSettles(ids[1..], id);
      assert CloseAll(ids)[1..] == CloseAll(ids[1..]);
      assert ids == [ids[0]] + ids[1..];
      assert ids[0] !in ids[1..];
    }
  }

  lemma {:induction false} WithoutIsDistinct(ids: seq<Id>, id: Id)
    requires Distinct(ids)
    ensures Distinct(Without(ids, id))
  {
    if ids != [] {
      WithoutIsDistinct(ids[1..], id);
      assert forall x <- Without(ids[1..], id) :: x in ids[1..];
      assert ids[0] !in ids[1..];
    }
  }

  /** One step settles exactly the waiters that leave the pending map. */
  lemma StepSettles(s: State, e: Event, id: Id)
    requires Inv(s) && Enabled(s, e)
    ensures Inv(Step(s, e).0)
    ensures var (s', out) := Step(s, e);
      && s.dispatched <= s'.dispatched
      && Settlements(out, id) == (if id in s.pending && id !in s'.pending then 1 else 0)
      && (id in s'.pending && id !in s.pending ==> id !in s.dispatched)
      && (id in s'.dispatched && id !in s.dispatched ==> id in s'.pending)
  {
    match e
    case Closed(socket) =>
      CloseAllSettles(s.pending, id);
    case Response(_, x, body) =>
      WithoutIsDistinct(s.pending, x);
      OneSettlement(Settled(x, Responded(body)), id);
    case Timeout(x) =>
      WithoutIsDistinct(s.pending, x);
      OneSettlement(Settled(x, TimedOut), id);
    case Hello(socket, token) =>
      HelloSettlesNothing(s, socket, token, id);
    case Northbound(x, targetResolved) =>
      OneSettlement(OnNorthbound(s, x, targetResolved).1[0], id);
    case _ =>
  }

  lemma OneSettlement(f: Effect, id: Id)
    ensures Settlements([f], id) == if f.Settled? && f.id == id then 1 else 0
  {
    assert [f][1..] == [];
  }

  lemma HelloSettlesNothing(s: State, socket: Socket, token: Token, id: Id)
    ensures Settlements(OnHello(s, socket, token).1, id) == 0
  {
    var out := OnHello(s, socket, token).1;
    OneSettlement(out[|out| - 1], id);
    if |out| == 2 {
      OneSettlement(out[0], id);
      SettlementsAppend([out[0]], [out[1]], id);
    }
  }

  /**
   * In every run each dispatched waiter is settled exactly once if it has left the pending map and not at all
   * while it is in it, and each pending one has a live timer, so that it will be settled.
   */
  lemma {:induction false} SettledExactlyOnce(s: State, events: seq<Event>, before: seq<Effect>)
    requires Inv(s) && Run(s, events)
    requires forall id :: Settlements(before, id) == if id in s.dispatched && id !in s.pending then 1 else 0
    ensures var f := Final(s, events);
      && Inv(f)
      && forall id ::
           Settlements(before + Log(s, events), id) == if id in f.dispatched && id !in f.pending then 1 else 0
    decreases |events|
  {
    hide Step, Inv, Enabled;
    if events == [] {
      assert before + [] == before;
    } else {
      var (s', out) := Step(s, events[0]);
      StepSettles(s, events[0], 0);
      forall id
        ensures Settlements(before + out, id) == if id in s'.dispatched && id !in s'.pending then 1 else 0
      {
        StepSettles(s, events[0], id);
        PendingWasDispatched(s, id);
        PendingWasDispatched(s', id);
        SettlementsAppend(before, out, id);
      }
      SettledExactlyOnce(s', events[1..], before + out);
      assert before + out + Log(s', events[1..]) == before + Log(s, events);
    }
  }

  lemma PendingWasDispatched(s: State, id: Id)
    requires Inv(s)
    ensures id in s.pending ==> id in s.dispatched
  {
    assert id in s.pending ==> id in s.timers;
  }

  // ----- with which outcome -----

  /** A waiter is settled as answered, timed out or cut off exactly by an answer, its timer or a close. */
  lemma OutcomesAreEarned(s: State, e: Event, id: Id, o: Outcome)
    requires Inv(s) && Enabled(s, e) && Settled(id, o) in Step(s, e).1
    ensures id in s.pending && id !in Step(s, e).0.pending
    ensures forall body :: o == Responded(body) <==> e.Response? && e.id == id && e.body == body
    ensures o == TimedOut <==> e == Timeout(id)
    ensures o == ChannelClosed <==> e.Closed?
  {
    hide Lookup, Revoked;
    if e.Closed? { CloseAllOnly(s.pending, id, o); }
  }

  lemma {:induction false} CloseAllOnly(ids: seq<Id>, id: Id, o: Outcome)
    ensures Settled(id, o) in CloseAll(ids) <==> id in ids && o == ChannelClosed
  {
    if ids != [] { CloseAllOnly(ids[1..], id, o); }
  }

  /** What happens to a waiter first: its answer, its timer, or the close of any channel. */
  function Fate(events: seq<Event>, id: Id): Option<Outcome> {
    if events == [] then None
    else
      match events[0]
      case Response(_, x, body) => if x == id then Some(Responded(body)) else Fate(events[1..], id)
      case Timeout(x) => if x == id then Some(TimedOut) else Fate(events[1..], id)
      case Closed(_) => Some(ChannelClosed)
      case _ => Fate(events[1..], id)
  }

  /** What the next event means for a waiter. */
  lemma FateIsMet(s: State, e: Event, id: Id)
    requires Inv(s) && Enabled(s, e) && id in s.pending
    ensures var (s', out) := Step(s, e);
      match e
      case Response(_, x, body) =>
        if x == id then Settled(id, Responded(body)) in out && id !in s'.pending else id in s'.pending
      case Timeout(x) => if x == id then Settled(id, TimedOut) in out && id !in s'.pending else id in s'.pending
      case Closed(_) => Settled(id, ChannelClosed) in out && id !in s'.pending
      case _ => id in s'.pending
  {
    hide Lookup, Revoked;
    if e.Closed? { CloseAllOnly(s.pending, id, ChannelClosed); }
  }

  /** A waiter that was settled, and is not dispatched again, hears nothing more. */
  lemma {:induction false} GoneHearsNothing(s: State, events: seq<Event>, id: Id, o: Outcome)
    requires Inv(s) && Run(s, events) && id in s.dispatched && id !in s.pending
    ensures Settled(id, o) !in Log(s, events)
    decreases |events|
  {
    hide Step, Inv, Enabled;
    if events != [] {
      var (s', out) := Step(s, events[0]);
      StepSettles(s, events[0], id);
      if Settled(id, o) in out { OutcomesAreEarned(s, events[0], id, o); }
      GoneHearsNothing(s', events[1..], id, o);
    }
  }

  /** Over any run a waiter hears exactly what happened to it first; so one that is answered in time gets that body. */
  lemma {:induction false} EachHearsItsFate(s: State, events: seq<Event>, id: Id, o: Outcome)
    requires Inv(s) && Run(s, events) && id in s.pending
    ensures Settled(id, o) in Log(s, events) <==> Fate(events, id) == Some(o)
    decreases |events|
  {
    hide Step, Inv, Enabled;
    if events != [] {
      var (s', out) := Step(s, events[0]);
      PendingWasDispatched(s, id);
      StepSettles(s, events[0], id);
      FateIsMet(s, events[0], id);
      if Settled(id, o) in out { OutcomesAreEarned(s, events[0], id, o); }
      if id in s'.pending {
        EachHearsItsFate(s', events[1..], id, o);
      } else {
        GoneHearsNothing(s', events[1..], id, o);
      }
    }
  }

  // ----- who is the session, and what a northbound request is told -----

  /** A hello is refused as unauthenticated or revoked, or takes the session over from any other socket. */
  lemma HelloIsExact(s: State, socket: Socket, token: Token)
    ensures var (s', out) := Step(s, Hello(socket, token));
      match Lookup(s.issued, token)
      case None => s' == s && out == [Denied(socket, "unauthenticated")]
      case Some(c) =>
        if c.revoked then s' == s && out == [Denied(socket, "revoked")]
        else
          && s' == s.(session := Some(Session(socket, c.identity, token)))
          && (HelloOk(socket, c.identity) in out)
          && (forall x :: Destroyed(x) in out <==> s.session.Some? && s.session.value.socket == x != socket)
          && (forall f <- out :: f.Destroyed? || f == HelloOk(socket, c.identity))
  {
    hide Lookup;
  }

  /** 403 for a revoked session, 503 without one, 502 without a target; else one frame and one waiter, which is new. */
  lemma NorthboundIsExact(s: State, id: Id, targetResolved: bool)
    requires id !in s.dispatched
    ensures var (s', out) := Step(s, Northbound(id, targetResolved));
      if s.session.Some? && IsRevoked(s, s.session.value.token) then s' == s && out == [Answered(403)]
      else if s.session.None? || Lookup(s.issued, s.session.value.token).None? then s' == s && out == [Answered(503)]
      else if !targetResolved then s' == s && out == [Answered(502)]
      else
        && out == [RequestFrame(s.session.value.socket, s.session.value.token, id)]
        && (forall x :: x in s'.pending <==> x in s.pending || x == id)
        && s'.timers == s.timers + {id} && s'.dispatched == s.dispatched + {id}
        && s'.session == s.session && s'.issued == s.issued
  {
    hide Lookup;
  }

  /** A session ends by the close of its own socket or by a hello on another one, and by nothing else. */
  lemma SessionEndsExactly(s: State, e: Event)
    requires Enabled(s, e) && s.session.Some?
    ensures Step(s, e).0.session == s.session <==>
      && e != Closed(s.session.value.socket)
      && (e.Hello? && Lookup(s.issued, e.token).Some? && !Lookup(s.issued, e.token).value.revoked ==>
            s.session.value == Session(e.socket, Lookup(s.issued, e.token).value.identity, e.token))
  {
    hide Lookup, Revoked;
  }

  /** No waiter survives the close of a channel. This holds for any agent channel, not only the session's own. */
  lemma CloseLeavesNoWaiter(s: State, socket: Socket, id: Id)
    requires Inv(s)
    ensures var (s', out) := Step(s, Closed(socket));
      && s'.pending == [] && s'.timers == {}
      && (id in s.pending ==> Settled(id, ChannelClosed) in out)
      && (s.session.Some? && s.session.value.socket != socket ==> s'.session == s.session)
  {
    CloseAllLists(s.pending, id);
  }

  lemma {:induction false} CloseAllLists(ids: seq<Id>, id: Id)
    ensures id in ids ==> Settled(id, ChannelClosed) in CloseAll(ids)
  {
    if ids != [] {
      CloseAllLists(ids[1..], id);
    }
  }

  // ----- revocation -----

  ghost predicate IsRevoked(s: State, token: Token) {
    Lookup(s.issued, token).Some? && Lookup(s.issued, token).value.revoked
  }

  lemma RevokedStays(s: State, e: Event, token: Token)
    requires Enabled(s, e) && IsRevoked(s, token)
    ensures IsRevoked(Step(s, e).0, token)
    ensures forall f <- Step(s, e).1 :: !(f.RequestFrame? && f.token == token)
  {
    hide Revoked;
    match e
    case Issue(t, identity) =>
      LookupAfterIssue(s.issued, Credential(t, identity, false), token);
    case Revoke(identity) =>
      LookupAfterRevoke(s.issued, identity, token);
    case Closed(_) =>
      CloseAllWritesNothing(s.pending);
    case _ =>
  }

  lemma {:induction false} CloseAllWritesNothing(ids: seq<Id>)
    ensures forall f <- CloseAll(ids) :: f.Settled?
  {
    if ids != [] {
      CloseAllWritesNothing(ids[1..]);
    }
  }

  lemma {:induction false} RevokedIsSilent(s: State, events: seq<Event>, token: Token)
    requires Run(s, events) && IsRevoked(s, token)
    ensures forall f <- Log(s, events) :: !(f.RequestFrame? && f.token == token)
    decreases |events|
  {
    hide Step, IsRevoked;
    if events != [] {
      RevokedStays(s, events[0], token);
      RevokedIsSilent(Step(s, events[0]).0, events[1..], token);
    }
  }

  /** From the moment an identity is revoked, no request frame is written under any token it held. */
  lemma RevokeSilences(s: State, identity: Identity, events: seq<Event>, token: Token)
    requires Lookup(s.issued, token).Some? && Lookup(s.issued, token).value.identity == identity
    requires Run(Step(s, Revoke(identity)).0, events)
    ensures forall f <- Log(Step(s, Revoke(identity)).0, events) :: !(f.RequestFrame? && f.token == token)
  {
    LookupAfterRevoke(s.issued, identity, token);
    RevokedIsSilent(Step(s, Revoke(identity)).0, events, token);
  }

  // ----- what a token is worth -----

  /** Who holds a token after these events, and whether it is revoked, going by who was given it first. */
  function Standing(held: Option<(Identity, bool)>, events: seq<Event>, token: Token): Option<(Identity, bool)>
    decreases |events|
  {
    if events == [] then held
    else
      var now :=
        match events[0]
        case Issue(t, identity) => if held.None? && t == token then Some((identity, false)) else held
        case Revoke(identity) => if held.Some? && held.value.0 == identity then Some((identity, true)) else held
        case _ => held;
      Standing(now, events[1..], token)
  }

  function Holder(found: Option<Credential>): Option<(Identity, bool)> {
    match found
    case None => None
    case Some(c) => Some((c.identity, c.revoked))
  }

  /** Over any run a token finds whom it was first issued to, revoked exactly if that identity was revoked since. */
  lemma {:induction false} TokensStand(s: State, events: seq<Event>, token: Token)
    requires Run(s, events)
    ensures Holder(Lookup(Final(s, events).issued, token)) == Standing(Holder(Lookup(s.issued, token)), events, token)
    decreases |events|
  {
    if events != [] {
      var e := events[0];
      StandsOneStep(s, e, token);
      hide Step, Lookup, Enabled, Standing, Holder;
      TokensStand(Step(s, e).0, events[1..], token);
      StandingUnfolds(Holder(Lookup(s.issued, token)), events, token, Holder(Lookup(Step(s, e).0.issued, token)));
    }
  }

  lemma StandingUnfolds(
    held: Option<(Identity, bool)>, events: seq<Event>, token: Token, now: Option<(Identity, bool)>)
    requires events != [] && Standing(held, [events[0]], token) == now
    ensures Standing(held, events, token) == Standing(now, events[1..], token)
  {
    assert [events[0]][1..] == [];
  }

  lemma StandsOneStep(s: State, e: Event, token: Token)
    requires Enabled(s, e)
    ensures Holder(Lookup(Step(s, e).0.issued, token)) == Standing(Holder(Lookup(s.issued, token)), [e], token)
  {
    assert [e][1..] == [];
    match e
    case Issue(t, identity) => LookupAfterIssue(s.issued, Credential(t, identity, false), token);
    case Revoke(identity) => LookupAfterRevoke(s.issued, identity, token);
    case _ =>
  }

  /** A request frame goes to the session's socket, under its token, and that token is good at that moment. */
  lemma FramesAreAuthorized(s: State, e: Event, f: Effect)
    requires Enabled(s, e) && f in Step(s, e).1 && f.RequestFrame?
    ensures s.session.Some? && f.socket == s.session.value.socket && f.token == s.session.value.token
    ensures Lookup(s.issued, f.token).Some? && !Lookup(s.issued, f.token).value.revoked
    ensures e.Northbound? && f.id == e.id && f.id in Step(s, e).0.pending
  {
    if e.Closed? { CloseAllWritesNothing(s.pending); }
  }

  // ----- the relay as it runs -----

  lemma {:induction false} CloseAllOneMore(ids: seq<Id>, id: Id)
    ensures CloseAll(ids + [id]) == CloseAll(ids) + [Settled(id, ChannelClosed)]
  {
    if ids == [] {
      assert [] + [id] == [id] && [id][1..] == [];
    } else {
      CloseAllOneMore(ids[1..], id);
      assert (ids + [id])[1..] == ids[1..] + [id];
    }
  }

  class LabRelay {
    var issued: seq<Credential>
    var session: Option<Session>
    var pending: seq<Id>
    var timers: set<Id>
    ghost var dispatched: set<Id>

    ghost function Now(): State
      reads this
    {
      State(issued, session, pending, timers, dispatched)
    }

    constructor ()
      ensures Now() == START
    {
      issued, session, pending, timers, dispatched := [], None, [], {}, {};
    }

    method IssueToken(token: Token, identity: Identity)
      requires IsLabToken(token)
      modifies this
      ensures (Now(), []) == Step(old(Now()), Issue(token, identity))
    {
      issued := issued + [Credential(token, identity, false)];
    }

    method LookupToken(token: Token) returns (found: Option<Credential>)
      ensures found == Lookup(issued, token)
    {
      if !IsLabToken(token) { return None; }
      for i := 0 to |issued|
        invariant Lookup(issued[i..], token) == Lookup(issued, token)
      {
        if issued[i].token == token { return Some(issued[i]); }
        assert issued[i..][1..] == issued[i + 1..];
      }
      return None;
    }

    method RevokeIdentity(identity: Identity)
      modifies this
      ensures (Now(), []) == Step(old(Now()), Revoke(identity))
    {
      for i := 0 to |issued|
        invariant |issued| == |old(issued)|
        invariant forall j :: i <= j < |issued| ==> issued[j] == old(issued)[j]
        invariant forall j :: 0 <= j < i ==>
                    issued[j] == if old(issued)[j].identity == identity
                                 then old(issued)[j].(revoked := true) else old(issued)[j]
        invariant Now() == old(Now()).(issued := issued)
      {
        if issued[i].identity == identity {
          issued := issued[i := issued[i].(revoked := true)];
        }
      }
      assert issued == Revoked(old(issued), identity);
    }

    method HandleHello(socket: Socket, token: Token) returns (out: seq<Effect>)
      modifies this
      ensures (Now(), out) == Step(old(Now()), Hello(socket, token))
    {
      var record := LookupToken(token);
      if record.None? { return [Denied(socket, "unauthenticated")]; }
      if record.value.revoked { return [Denied(socket, "revoked")]; }
      out := [];
      if session.Some? && session.value.socket != socket {
        out := [Destroyed(session.value.socket)];
      }
      session := Some(Session(socket, record.value.identity, record.value.token));
      out := out + [HelloOk(socket, record.value.identity)];
    }

    method HandleResponse(socket: Socket, id: Id, body: string) returns (out: seq<Effect>)
      modifies this
      ensures (Now(), out) == Step(old(Now()), Response(socket, id, body))
    {
      if id !in pending { return []; }
      pending := Without(pending, id);
      timers := timers - {id};
      return [Settled(id, Responded(body))];
    }

    method HandleClosed(socket: Socket) returns (out: seq<Effect>)
      modifies this
      ensures (Now(), out) == Step(old(Now()), Closed(socket))
    {
      if session.Some? && session.value.socket == socket { session := None; }
      out := [];
      ghost var all, k := pending, 0;
      while pending != []
        invariant k <= |all| && pending == all[k..]
        invariant out == CloseAll(all[..k])
        invariant timers == old(timers) - (set id <- all[..k])
        invariant dispatched == old(dispatched) && issued == old(issued)
        invariant session == if old(session).Some? && old(session).value.socket == socket then None else old(session)
        decreases |pending|
      {
        var id := pending[0];
        assert all[..k + 1] == all[..k] + [id];
        CloseAllOneMore(all[..k], id);
        pending := pending[1..];
        timers := timers - {id};
        out := out + [Settled(id, ChannelClosed)];
        k := k + 1;
      }
      assert all[..k] == all;
    }

    method HandleNorthbound(id: Id, targetResolved: bool) returns (out: seq<Effect>)
      requires id !in dispatched
      modifies this
      ensures (Now(), out) == Step(old(Now()), Northbound(id, targetResolved))
    {
      var record: Option<Credential> := None;
      if session.Some? { record := LookupToken(session.value.token); }
      if record.Some? && record.value.revoked { return [Answered(403)]; }
      if session.None? || record.None? { return [Answered(503)]; }
      if !targetResolved { return [Answered(502)]; }
      timers := timers + {id};
      pending := pending + [id];
      dispatched := dispatched + {id};
      return [RequestFrame(session.value.socket, session.value.token, id)];
    }

    method HandleTimeout(id: Id) returns (out: seq<Effect>)
      requires id in timers
      modifies this
      ensures (Now(), out) == Step(old(Now()), Timeout(id))
    {
      pending := Without(pending, id);
      timers := timers - {id};
      return [Settled(id, TimedOut)];
    }
  }
}
