/**
 * The revocation list: a file that is read again when its modification time changes, with a cache of what it said.
 */
module RevocationList {
  import opened Common

  type Mtime = nat

  /** An empty text is an absent id. */
  datatype Identity = Identity(jti: string, sub: string)

  /**
   * What reading and parsing the file gives. `null` and a text count as unparseable: taking lists from them throws
   * (a text has a `sub` of its own, which is no list). `NotARecord` is a number, a truth value or an array.
   */
  datatype Content =
    | Unparseable
    | NotARecord
    | BadLists
    | Lists(jti: set<string>, sub: set<string>)

  datatype File = Missing | StatDenied | Present(mtime: Mtime, content: Content)

  /** No modification time stands for one that equals none. */
  datatype Cache = Cache(mtime: Option<Mtime>, jti: set<string>, sub: set<string>, denyAll: bool)

  const EMPTY := Cache(None, {}, {}, false)

  function Loaded(mtime: Mtime, content: Content): Cache {
    match content
    case Unparseable => Cache(Some(mtime), {}, {}, true)
    case BadLists => Cache(Some(mtime), {}, {}, true)
    case NotARecord => Cache(Some(mtime), {}, {}, false)
    case Lists(jti, sub) => Cache(Some(mtime), jti, sub, false)
  }

  function Load(hasPath: bool, cache: Cache, file: File): Cache {
    if !hasPath then cache
    else
      match file
      case Present(mtime, content) => if cache.mtime == Some(mtime) then cache else Loaded(mtime, content)
      case _ => EMPTY
  }

  predicate Denies(cache: Cache, id: Identity) {
    || cache.denyAll
    || (id.jti != "" && id.jti in cache.jti)
    || (id.sub != "" && id.sub in cache.sub)
  }

  datatype Reply = Revoked | Refused | Threw

  /** What `revoke` answers, and the lists it writes. `writable` tells whether the write goes through. */
  function Revoking(hasPath: bool, file: File, jti: string, writable: bool): (Reply, Option<Content>) {
    var id := Trim(jti);
    if id == "" || !hasPath then (Refused, None)
    else
      match file
      case StatDenied => (Refused, None)
      case Missing => if writable then (Revoked, Some(Lists({id}, {}))) else (Refused, None)
      case Present(_, content) =>
        match content
        case Unparseable => (Refused, None)
        case NotARecord => (Refused, None)
        case BadLists => (Threw, None)
        case Lists(js, subs) => if writable then (Revoked, Some(Lists(js + {id}, subs))) else (Refused, None)
  }

  // ----- the process and the file -----

  datatype State = State(hasPath: bool, cache: Cache, file: File)

  /** `mtime` is the modification time the file system gives a write. */
  datatype Event =
    | Ask(id: Identity)
    | Revoke(jti: string, writable: bool, mtime: Mtime)
    | OutsideWrite(file: File)

  function Step(s: State, e: Event): State {
    match e
    case Ask(_) => s.(cache := Load(s.hasPath, s.cache, s.file))
    case Revoke(jti, writable, mtime) =>
      var (_, written) := Revoking(s.hasPath, s.file, jti, writable);
      if written.None? then s
      else
        s.(file := Present(mtime, written.value),
           cache := Cache(None, written.value.jti, written.value.sub, false))
    case OutsideWrite(file) => s.(file := file)
  }

  /** What is written is cached under no time, so it is read again when it is asked for; nothing else is touched. */
  lemma WriteIsCached(s: State, jti: string, writable: bool, mtime: Mtime, js: set<string>, subs: set<string>)
    requires s.hasPath && Trim(jti) != "" && writable && s.file.Present? && s.file.content == Lists(js, subs)
    ensures var all := js + {Trim(jti)};
      Step(s, Revoke(jti, writable, mtime))
      == s.(file := Present(mtime, Lists(all, subs)), cache := Cache(None, all, subs, false))
  {}

  predicate IsRevoked(s: State, id: Identity) { Denies(Load(s.hasPath, s.cache, s.file), id) }

  function Run(s: State, events: seq<Event>): State {
    if events == [] then s else Step(Run(s, events[..|events| - 1]), events[|events| - 1])
  }

  // ----- the cache agrees with the file -----

  /**
   * What one reading of the file answers: nothing when it is missing, may not be looked at, or holds a number, a truth
   * value or an array; everything when it cannot be parsed or its lists are no lists.
   */
  predicate Says(file: File, id: Identity) {
    match file
    case Present(_, content) =>
      (match content
       case Unparseable => true
       case BadLists => true
       case NotARecord => false
       case Lists(jti, sub) => (id.jti != "" && id.jti in jti) || (id.sub != "" && id.sub in sub))
    case _ => false
  }

  /** Equal modification times mean equal contents: `stamp` gives the content of each. */
  ghost predicate Stamped(stamp: Mtime -> Content, file: File) {
    file.Present? ==> file.content == stamp(file.mtime)
  }

  ghost predicate Inv(stamp: Mtime -> Content, s: State) {
    && Stamped(stamp, s.file)
    && (s.cache.mtime.Some? ==> s.cache == Loaded(s.cache.mtime.value, stamp(s.cache.mtime.value)))
    && (!s.hasPath ==> s.cache == EMPTY)
  }

  ghost predicate StampedRun(stamp: Mtime -> Content, s: State, events: seq<Event>) {
    events == [] ||
    (StampedRun(stamp, s, events[..|events| - 1])
     && Stamped(stamp, Step(Run(s, events[..|events| - 1]), events[|events| - 1]).file))
  }

  lemma StepKeepsInv(stamp: Mtime -> Content, s: State, e: Event)
    requires Inv(stamp, s) && Stamped(stamp, Step(s, e).file)
    ensures Inv(stamp, Step(s, e))
  {
    hide Trim;
  }

  lemma {:induction false} RunKeepsInv(stamp: Mtime -> Content, s: State, events: seq<Event>)
    requires Inv(stamp, s) && StampedRun(stamp, s, events)
    ensures Inv(stamp, Run(s, events))
  {
    hide Step, Inv, Stamped;
    if events != [] {
      RunKeepsInv(stamp, s, events[..|events| - 1]);
      StepKeepsInv(stamp, Run(s, events[..|events| - 1]), events[|events| - 1]);
    }
  }

  /** In every run the answer is what reading the file now would give; without a path nothing is revoked. */
  lemma CacheIsCoherent(stamp: Mtime -> Content, file: File, hasPath: bool, events: seq<Event>, id: Identity)
    requires Stamped(stamp, file) && StampedRun(stamp, State(hasPath, EMPTY, file), events)
    ensures var s := Run(State(hasPath, EMPTY, file), events);
      IsRevoked(s, id) <==> hasPath && Says(s.file, id)
  {
    hide Run, StampedRun;
    RunKeepsInv(stamp, State(hasPath, EMPTY, file), events);
    RunKeepsPath(State(hasPath, EMPTY, file), events);
  }

  // ----- unreadable means yes -----

  /** The file is there but no lists can be read from it. */
  predicate Unreadable(file: File) { !file.Missing? && !(file.Present? && file.content.Lists?) }

  /** The fail-closed answer: an unreadable file revokes everything. */
  predicate FailClosed(hasPath: bool, file: File, id: Identity) {
    hasPath && (Unreadable(file) || Says(file, id))
  }

  /** A file that is there but unreadable is one that no revoke is written to. */
  lemma UnreadableIsNotWritten(file: File, jti: string)
    requires Trim(jti) != ""
    ensures Unreadable(file) <==> Revoking(true, file, jti, true).0 != Revoked
  {
    hide Trim;
  }

  /**
   * In every run the answer is the fail-closed one exactly when there is no path, or the file may be looked at and
   * holds no number, truth value or array.
   */
  lemma FailsClosedExactly(stamp: Mtime -> Content, file: File, hasPath: bool, events: seq<Event>, id: Identity)
    requires Stamped(stamp, file) && StampedRun(stamp, State(hasPath, EMPTY, file), events)
    ensures var s := Run(State(hasPath, EMPTY, file), events);
      (IsRevoked(s, id) <==> FailClosed(hasPath, s.file, id))
      <==> !hasPath || !(s.file.StatDenied? || (s.file.Present? && s.file.content.NotARecord?))
  {
    hide Run, StampedRun, IsRevoked;
    CacheIsCoherent(stamp, file, hasPath, events, id);
  }

  /** A file that may not be looked at revokes nothing, whatever was cached, and revoking calls it unreadable. */
  lemma DeniedStatFailsOpen(s: State, id: Identity, jti: string, writable: bool)
    requires s.hasPath && s.file.StatDenied?
    ensures !IsRevoked(s, id) && FailClosed(s.hasPath, s.file, id)
    ensures Revoking(s.hasPath, s.file, jti, writable) == (Refused, None)
  {
    hide Trim;
  }

  /** A listed id stops being revoked when the file may no longer be looked at. */
  lemma DeniedStatForgets(jti: string)
    requires jti != ""
    ensures var s := State(true, EMPTY, Present(1, Lists({jti}, {})));
      IsRevoked(s, Identity(jti, "")) && !IsRevoked(Run(s, [OutsideWrite(StatDenied)]), Identity(jti, ""))
  {
    var s := State(true, EMPTY, Present(1, Lists({jti}, {})));
    assert [OutsideWrite(StatDenied)][..0] == [];
    assert Run(s, []) == s;
  }

  /** Two contents under one modification time, and the cache answers for the first. */
  lemma SameTimeHidesAWrite(jti: string)
    requires jti != ""
    ensures var s := Run(State(true, EMPTY, Present(1, Lists({}, {}))),
                         [Ask(Identity(jti, "")), OutsideWrite(Present(1, Lists({jti}, {})))]);
      Says(s.file, Identity(jti, "")) && !IsRevoked(s, Identity(jti, ""))
  {
    var s0 := State(true, EMPTY, Present(1, Lists({}, {})));
    var events := [Ask(Identity(jti, "")), OutsideWrite(Present(1, Lists({jti}, {})))];
    assert events[..1] == [Ask(Identity(jti, ""))] && events[..1][..0] == [];
    assert Run(s0, events[..1]) == Step(s0, events[0]);
    assert Run(s0, events) == Step(Step(s0, events[0]), events[1]);
  }

  // ----- revoking -----

  /** The call is refused or throws exactly when the id is blank, there is no path, or the file cannot be taken over. */
  lemma RevokeOutcome(s: State, jti: string, writable: bool)
    ensures var (reply, written) := Revoking(s.hasPath, s.file, jti, writable);
      && (reply == Revoked <==>
            Trim(jti) != "" && s.hasPath && writable && (s.file.Missing? || (s.file.Present? && s.file.content.Lists?)))
      && (reply == Threw <==> Trim(jti) != "" && s.hasPath && s.file.Present? && s.file.content.BadLists?)
      && (reply == Revoked <==> written.Some?)
  {}

  /** After a revoke the trimmed id is revoked, and every id the lists named before still is. */
  lemma RevokeTakesEffect(s: State, jti: string, mtime: Mtime, id: Identity)
    requires Revoking(s.hasPath, s.file, jti, true).0 == Revoked
    ensures var s' := Step(s, Revoke(jti, true, mtime));
      && (IsRevoked(s', id) <==> Says(s.file, id) || id.jti == Trim(jti))
      && (id.jti == Trim(jti) ==> IsRevoked(s', id))
  {
    hide Trim;
  }

  /** The id as it was given is revoked exactly if it had no blanks around it, or was listed already. */
  lemma RevokedAsGiven(s: State, jti: string, sub: string, mtime: Mtime)
    requires Revoking(s.hasPath, s.file, jti, true).0 == Revoked && !Says(s.file, Identity(jti, sub))
    ensures IsRevoked(Step(s, Revoke(jti, true, mtime)), Identity(jti, sub)) <==> Trim(jti) == jti
  {
    hide Trim;
    RevokeTakesEffect(s, jti, mtime, Identity(jti, sub));
  }

  ghost predicate NoOutsideWrite(events: seq<Event>) { forall e <- events :: !e.OutsideWrite? }

  lemma StepKeepsRevoked(s: State, e: Event, id: Identity)
    requires !e.OutsideWrite? && Says(s.file, id)
    ensures Says(Step(s, e).file, id)
  {
    hide Trim;
  }

  /** Until the file is written from outside, whatever it revokes stays revoked: asking and revoking only add. */
  lemma {:induction false} RevokedStays(stamp: Mtime -> Content, s: State, events: seq<Event>, id: Identity)
    requires Inv(stamp, s) && StampedRun(stamp, s, events) && NoOutsideWrite(events)
    requires IsRevoked(s, id)
    ensures IsRevoked(Run(s, events), id)
  {
    hide Step, Inv, IsRevoked, Says, StampedRun;
    Coherent(stamp, s, id);
    FileKeeps(s, events, id);
    RunKeepsInv(stamp, s, events);
    Coherent(stamp, Run(s, events), id);
    RunKeepsPath(s, events);
  }

  lemma Coherent(stamp: Mtime -> Content, s: State, id: Identity)
    requires Inv(stamp, s)
    ensures IsRevoked(s, id) <==> s.hasPath && Says(s.file, id)
  {}

  lemma {:induction false} FileKeeps(s: State, events: seq<Event>, id: Identity)
    requires NoOutsideWrite(events) && Says(s.file, id)
    ensures Says(Run(s, events).file, id)
  {
    hide Step, Says;
    if events != [] {
      FileKeeps(s, events[..|events| - 1], id);
      StepKeepsRevoked(Run(s, events[..|events| - 1]), events[|events| - 1], id);
    }
  }

  lemma {:induction false} RunKeepsPath(s: State, events: seq<Event>)
    ensures Run(s, events).hasPath == s.hasPath
  {
    if events != [] { RunKeepsPath(s, events[..|events| - 1]); }
  }

  // ----- the store as it runs -----

  class Store {
    const hasPath: bool
    var cache: Cache
    /** The file the path names; outside the store, and written by others too. */
    var file: File

    ghost function Now(): State
      reads this
    {
      State(hasPath, cache, file)
    }

    constructor (hasPath: bool, file: File)
      ensures Now() == State(hasPath, EMPTY, file)
    {
      this.hasPath, cache, this.file := hasPath, EMPTY, file;
    }

    method LoadCache()
      modifies this`cache
      ensures cache == Load(hasPath, old(cache), file)
    {
      if !hasPath { return; }
      if !file.Present? {
        cache := EMPTY;
        return;
      }
      if cache.mtime == Some(file.mtime) { return; }
      match file.content
      case Lists(jti, sub) => cache := Cache(Some(file.mtime), jti, sub, false);
      case NotARecord => cache := Cache(Some(file.mtime), {}, {}, false);
      case _ => cache := Cache(Some(file.mtime), {}, {}, true);
    }

    method AskRevoked(id: Identity) returns (revoked: bool)
      modifies this`cache
      ensures Now() == Step(old(Now()), Ask(id)) && (revoked <==> IsRevoked(old(Now()), id))
    {
      LoadCache();
      if cache.denyAll { return true; }
      if id.jti != "" && id.jti in cache.jti { return true; }
      if id.sub != "" && id.sub in cache.sub { return true; }
      return false;
    }

    method RevokeId(jti: string, writable: bool, mtime: Mtime) returns (reply: Reply)
      modifies this
      ensures Now() == Step(old(Now()), Revoke(jti, writable, mtime))
      ensures reply == Revoking(hasPath, old(file), jti, writable).0
    {
      hide Trim;
      var tokenId := Trim(jti);
      if tokenId == "" || !hasPath { return Refused; }
      if file.StatDenied? { return Refused; }
      var listed: set<string>, subs: set<string> := {}, {};
      if file.Present? {
        match file.content
        case Unparseable => return Refused;
        case NotARecord => return Refused;
        case BadLists => return Threw;
        case Lists(js, ss) => listed, subs := js, ss;
      }
      listed := listed + {tokenId};
      assert file.Missing? ==> listed == {tokenId} && subs == {};
      if !writable { return Refused; }
      file := Present(mtime, Lists(listed, subs));
      cache := Cache(None, listed, subs, false);
      return Revoked;
    }
  }
}
