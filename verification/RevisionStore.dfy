/** The host as a revision store that only this client writes: what whole runs of draft writes keep. */
module RevisionStore {
  import opened Common
  import opened Pins
  import opened PinKey
  import opened CanonicalDraft

  /** The published revision, and the forward draft if there is one. */
  datatype Store = Store(live: Entity, draft: Option<Entity>)

  /**
   * How the store works. Nothing is assumed of what a saving request does to it. Without a draft it answers a read of
   * the working copy with `noDraft`. At any point an outage may take the place of an answer; a saving request is
   * applied all the same.
   */
  datatype Engine = Engine(
    apply: (Store, Request) -> Store,
    reply: (Store, Request) -> WriteReply,
    inventory: Store -> InventoryReply,
    noDraft: Store -> ReadReply,
    outage: History -> Option<HostError>)

  /** An outage does not tell that something is absent or that there is no draft endpoint. */
  ghost predicate TransientOutages(e: Engine) {
    forall h :: e.outage(h).Some? ==>
      var error := e.outage(h).value;
      error.status != Some(404) && !(error.status == Some(403) && error.noPendingRevision) && !error.missingEndpoint
  }

  /** From this point on there is no outage. */
  ghost predicate Up(e: Engine, h: History) { forall h' | h <= h' :: e.outage(h').None? }

  lemma StaysUp(e: Engine, h: History, h': History)
    requires Up(e, h) && h <= h'
    ensures Up(e, h')
  {}

  /** The working-copy alias without a draft: an absence, or the published revision echoed. */
  ghost predicate HonestAlias(e: Engine) {
    forall s :: e.noDraft(s) == Found(s.live) || Classify(WorkingCopy, e.noDraft(s)) == Absent
  }

  function Fold(e: Engine, s: Store, saves: History): Store {
    if saves == [] then s else e.apply(Fold(e, s, saves[..|saves| - 1]), saves[|saves| - 1])
  }

  /** The store after these requests: only saving ones change it. */
  function After(e: Engine, s: Store, h: History): Store { Fold(e, s, Saved(h)) }

  function AnswerRead(e: Engine, s: Store, version: Version): ReadReply {
    if version != WorkingCopy then Found(s.live)
    else if s.draft.Some? then Found(s.draft.value)
    else e.noDraft(s)
  }

  function StoreHost(e: Engine, s: Store, sentinel: bool, rawQuery: bool): Host {
    Host(
      true, sentinel, rawQuery,
      (h: History) =>
        if e.outage(h).Some? then ReadFailed(e.outage(h).value)
        else if h != [] && h[|h| - 1].Read? then AnswerRead(e, After(e, s, h), h[|h| - 1].version)
        else NotFound,
      (h: History) => if e.outage(h).Some? then InventoryFailed(e.outage(h).value) else e.inventory(After(e, s, h)),
      (h: History) =>
        if e.outage(h).Some? then WriteFailed(e.outage(h).value)
        else if h == [] then Written(None)
        else e.reply(After(e, s, h[..|h| - 1]), h[|h| - 1]))
  }

  /** An outage fails every request; else the store of that moment answers. */
  lemma StoreAnswersExactly(e: Engine, s: Store, sentinel: bool, rawQuery: bool, h: History, v: Version, save: Request)
    ensures var host := StoreHost(e, s, sentinel, rawQuery);
      var read, saving := h + [Request.Read(v)], h + [save];
      && host.canRead && host.sentinel == sentinel && host.rawQuery == rawQuery
      && host.read(read) ==
         (if e.outage(read).Some? then ReadFailed(e.outage(read).value)
          else if v == WorkingCopy then
            if After(e, s, read).draft.Some? then Found(After(e, s, read).draft.value) else e.noDraft(After(e, s, read))
          else Found(After(e, s, read).live))
      && host.inventory(h) ==
         (if e.outage(h).Some? then InventoryFailed(e.outage(h).value) else e.inventory(After(e, s, h)))
      && host.write(saving) ==
         (if e.outage(saving).Some? then WriteFailed(e.outage(saving).value) else e.reply(After(e, s, h), save))
  {
    hide After;
    assert (h + [save])[..|h|] == h;
  }

  ghost predicate IsStoreHost(host: Host, e: Engine, s: Store) {
    HonestAlias(e) && TransientOutages(e) && host == StoreHost(e, s, host.sentinel, host.rawQuery)
  }

  predicate HasForwardDraft(s: Store) { s.draft.Some? && s.draft.value.vid != s.live.vid }

  /** The pair is a true picture of the store. */
  ghost predicate Shows(p: Pair, s: Store) {
    && p.entity == s.live
    && s.live.vid == Some(p.liveVid)
    && p.latestVid == p.liveVid
    && p.pins == Normalized(s.live.pins)
    && (Continuing(p) <==> HasForwardDraft(s))
    && (Continuing(p) ==> p.working == s.draft && p.workingVid == s.draft.value.vid)
  }

  lemma StoreAnswer(host: Host, e: Engine, s: Store, version: Version, h: History)
    requires IsStoreHost(host, e, s)
    ensures var r := ReadVersion(host, version, h);
      && (r.0 == Classify(version, AnswerRead(e, After(e, s, h), version)) || r.0.Denied? || r.0.Failed?)
      && (Up(e, h) ==> r.0 == Classify(version, AnswerRead(e, After(e, s, h), version)))
      && After(e, s, r.1) == After(e, s, h)
  {
    var h' := h + [Request.Read(version)];
    assert h <= h';
    assert e.outage(h').Some? ==> Classify(version, ReadFailed(e.outage(h').value)) in {Denied, Failed};
  }

  lemma PairShowsStore(host: Host, e: Engine, s: Store, id: string, failure: Failure, h: History)
    requires IsStoreHost(host, e, s) && ReadPair(host, id, failure, h).Done?
    ensures Shows(ReadPair(host, id, failure, h).value, After(e, s, h))
  {
    var st := After(e, s, h);
    var (live, h1) := ReadVersion(host, Default, h);
    StoreAnswer(host, e, s, Default, h);
    var (latest, h2) := ReadVersion(host, LatestVersion, h1);
    StoreAnswer(host, e, s, LatestVersion, h1);
    StoreAnswer(host, e, s, WorkingCopy, h2);
    assert e.noDraft(st) == Found(st.live) || Classify(WorkingCopy, e.noDraft(st)) == Absent;
  }

  /** A write that saved was preceded by a read that was answered, so a moderated entity looked moderated. */
  lemma SavingLooksModerated(host: Host, e: Engine, s: Store, number: ToSafeInteger, input: Input, h: History)
    requires IsStoreHost(host, e, s) && After(e, s, h).live.moderated
    requires Saved(Write(host, number, input, h).sent) != Saved(h)
    ensures LooksModerated(host, h)
  {
    hide Prepare, Confirm;
    StoreAnswer(host, e, s, Default, h);
  }

  /** A canonical PATCH of a moderated entity never meets a forward draft, so none is displaced. */
  lemma NoDraftIsDisplaced(host: Host, e: Engine, s: Store, number: ToSafeInteger, input: Input, h: History)
    requires IsStoreHost(host, e, s) && After(e, s, h).live.moderated
    requires Saved(Write(host, number, input, h).sent) == Saved(h) + [Patch(input)]
    ensures !HasForwardDraft(After(e, s, h))
  {
    hide ReadPair, Write;
    assert Saved(h) + [Patch(input)] != Saved(h) by { assert |Saved(h) + [Patch(input)]| == |Saved(h)| + 1; }
    SavingLooksModerated(host, e, s, number, input, h);
    StoreAnswer(host, e, s, Default, h);
    PatchOnlyWithoutDraft(host, number, input, h);
    PairShowsStore(host, e, s, input.id, RevisionIdentity, ReadVersion(host, Default, h).1);
  }

  // ----- runs -----

  /** Writes one after another. */
  ghost function WriteAll(host: Host, number: ToSafeInteger, inputs: seq<Input>, h: History): (runs: seq<Run<Outcome>>)
    ensures |runs| == |inputs|
  {
    if inputs == [] then []
    else
      var r := Write(host, number, inputs[0], h);
      [r] + WriteAll(host, number, inputs[1..], r.sent)
  }

  /** The draft, if any, still pins at least what the first published revision pinned. */
  ghost predicate Advanced(number: ToSafeInteger, origin: Store, s: Store) {
    && s.live.vid == origin.live.vid
    && SamePins(Normalized(origin.live.pins), Normalized(s.live.pins))
    && (HasForwardDraft(s) ==> Landed(number, Normalized(origin.live.pins), Normalized(s.draft.value.pins)))
  }

  /** A verified write showed the origin's published revision, and a draft no older than it in any pin. */
  ghost predicate KeepsOrigin(number: ToSafeInteger, origin: Store, r: Run<Outcome>)
    requires r.Done?
  {
    && r.value.Verified?
    && Some(r.value.after.liveVid) == origin.live.vid
    && SamePins(Normalized(origin.live.pins), r.value.after.pins)
    && Continuing(r.value.after)
    && Landed(number, Normalized(origin.live.pins), ForwardPins(r.value.after))
  }

  /** What a verified write leaves, in terms of the store before and after it. */
  lemma VerifiedShowsStore(host: Host, e: Engine, s: Store, number: ToSafeInteger, input: Input, h: History)
    requires IsStoreHost(host, e, s)
    requires Write(host, number, input, h).Done? && Write(host, number, input, h).value.Verified?
    ensures var r := Write(host, number, input, h);
      && Shows(r.value.before, After(e, s, h))
      && Shows(r.value.after, After(e, s, r.sent))
      && Checked(number, input.relationships, r.value.before, r.value.after)
  {
    hide Write, Prepare, ReadPair, Confirm, Checked, Shows;
    var h1 := ReadVersion(host, Default, h).1;
    var p := Prepare(host, input, h1);
    VerifiedParts(host, number, input, h);
    var sent := p.sent + [p.value.1];
    PreparedFromReads(host, input, h1);
    PairShowsStore(host, e, s, input.id, RevisionIdentity, h1);
    ConfirmChecks(host, number, input, p.value.0, sent);
    PairShowsStore(host, e, s, input.id, Uncertain, sent);
  }

  /** A save that keeps the draft's revision id keeps what that revision pins. */
  ghost predicate DraftsAreFixed(e: Engine) {
    forall s: Store, save: Request | Saving(save) ::
      var s' := e.apply(s, save);
      s.draft.Some? && s'.draft.Some? && s'.draft.value.vid == s.draft.value.vid ==>
        s'.draft.value.pins == s.draft.value.pins
  }

  /** A draft request that met no endpoint saved nothing. */
  ghost predicate MissedSavesNothing(e: Engine) {
    forall s: Store, save: Request
      | save.Draft? && e.reply(s, save).WriteFailed? && e.reply(s, save).error.missingEndpoint ::
      e.apply(s, save) == s
  }

  /** The published ids and revisions hold no separator of the key. */
  ghost predicate KeyReadable(s: Store) { Clean(Normalized(s.live.pins)) }

  /**
   * How a write of the run may end. A verified one needs no assumption on what saving does, a rejected one needs drafts
   * to be fixed, a missing endpoint needs that it saved nothing, and any other failure is judged by the store it left.
   */
  ghost predicate Accountable(
    e: Engine, number: ToSafeInteger, origin: Store, before: Store, after: Store, r: Run<Outcome>)
  {
    match r
    case Done(outcome, _) => outcome.Verified? && Opening(outcome.before) && KeyReadable(before) && KeyReadable(after)
    case Stopped(failure, _) =>
      || SaysNoWrite(failure)
      || (failure.Rejected? && DraftsAreFixed(e) && KeyReadable(before) && KeyReadable(after))
      || (failure.MissingEndpoint? && MissedSavesNothing(e))
      || Advanced(number, origin, after)
  }

  lemma OneWriteAdvances(
      host: Host, e: Engine, s: Store, number: ToSafeInteger, origin: Store, input: Input, h: History)
    requires IsStoreHost(host, e, s)
    requires SubmissionOf(input.relationships) == None
    requires Advanced(number, origin, After(e, s, h))
    requires var r := Write(host, number, input, h);
      Accountable(e, number, origin, After(e, s, h), After(e, s, r.sent), r)
    ensures var r := Write(host, number, input, h);
      Advanced(number, origin, After(e, s, r.sent)) && (r.Done? ==> KeepsOrigin(number, origin, r))
  {
    hide Write, Key, Clean, SamePins, Landed, DraftsAreFixed, MissedSavesNothing;
    var r := Write(host, number, input, h);
    ExitsAreHonest(host, number, input, h);
    if r.Done? {
      VerifiedShowsStore(host, e, s, number, input, h);
      var before, after := r.value.before, r.value.after;
      var pins := Normalized(origin.live.pins);
      KeyIsFaithful(after.pins, before.pins);
      SamePinsIsEquivalence(pins, before.pins, after.pins);
      SamePinsLand(number, pins, before.pins);
      LandedIsTransitive(number, pins, Baseline(before), ForwardPins(after));
    } else if r.failure.Rejected? && DraftsAreFixed(e)
              && KeyReadable(After(e, s, h)) && KeyReadable(After(e, s, r.sent)) {
      RejectedKeepsStore(host, e, s, number, origin, input, h);
    } else if r.failure.MissingEndpoint? && MissedSavesNothing(e) {
      MissingKeepsStore(host, e, s, number, input, h);
    }
  }

  /** Only the guarded route rejects or misses an endpoint. */
  lemma GuardedFailure(host: Host, number: ToSafeInteger, input: Input, h: History)
    requires var r := Write(host, number, input, h); r.Stopped? && (r.failure.Rejected? || r.failure.MissingEndpoint?)
    ensures LooksModerated(host, h) && Saved(Write(host, number, input, h).sent) != Saved(h)
  {
    hide Confirm, Prepare;
    ExitsAreHonest(host, number, input, h);
  }

  /** The reply to a saving request, which an outage may take the place of. */
  function Answered(e: Engine, s: Store, h: History, save: Request): WriteReply {
    var outage := e.outage(h + [save]);
    if outage.Some? then WriteFailed(outage.value) else e.reply(s, save)
  }

  /** What the saving request of a guarded write does to the store. */
  lemma SaveIsApplied(host: Host, e: Engine, s: Store, number: ToSafeInteger, input: Input, h: History)
    requires IsStoreHost(host, e, s) && LooksModerated(host, h)
    requires Saved(Write(host, number, input, h).sent) != Saved(h)
    ensures var p := Prepare(host, input, ReadVersion(host, Default, h).1);
      && p.Done? && Saving(p.value.1) && Shows(p.value.0, After(e, s, h))
      && After(e, s, p.sent + [p.value.1]) == After(e, s, Write(host, number, input, h).sent)
      && After(e, s, Write(host, number, input, h).sent) == e.apply(After(e, s, h), p.value.1)
      && host.write(p.sent + [p.value.1]) == Answered(e, After(e, s, h), p.sent, p.value.1)
  {
    hide Write, Prepare, ReadPair, Earned, Shows;
    ExitsAfterSaving(host, number, input, h);
    var h1 := ReadVersion(host, Default, h).1;
    var p := Prepare(host, input, h1);
    PreparedFromReads(host, input, h1);
    StoreAnswer(host, e, s, Default, h);
    PairShowsStore(host, e, s, input.id, RevisionIdentity, h1);
    assert After(e, s, p.sent) == After(e, s, h);
    StoreReply(host, e, s, p.sent, p.value.1);
    SavedAfter(p.sent, p.value.1);
  }

  /** A rejected write was seen to leave the revisions as they were; with fixed drafts that settles what they pin. */
  lemma RejectedKeepsStore(
      host: Host, e: Engine, s: Store, number: ToSafeInteger, origin: Store, input: Input, h: History)
    requires IsStoreHost(host, e, s) && DraftsAreFixed(e)
    requires Advanced(number, origin, After(e, s, h))
    requires var r := Write(host, number, input, h);
      && r.Stopped? && r.failure.Rejected? && KeyReadable(After(e, s, h)) && KeyReadable(After(e, s, r.sent))
    ensures Advanced(number, origin, After(e, s, Write(host, number, input, h).sent))
  {
    hide Write, Prepare, ReadPair, Key, Clean, SamePins, Landed;
    GuardedFailure(host, number, input, h);
    ExitsAfterSaving(host, number, input, h);
    SaveIsApplied(host, e, s, number, input, h);
    var p := Prepare(host, input, ReadVersion(host, Default, h).1);
    var (before, save) := p.value;
    var again := ReadPair(host, input.id, Uncertain, p.sent + [save]).value;
    PairShowsStore(host, e, s, input.id, Uncertain, p.sent + [save]);
    KeyIsFaithful(again.pins, before.pins);
    SamePinsIsEquivalence(Normalized(origin.live.pins), before.pins, again.pins);
  }

  lemma MissingKeepsStore(host: Host, e: Engine, s: Store, number: ToSafeInteger, input: Input, h: History)
    requires IsStoreHost(host, e, s) && MissedSavesNothing(e)
    requires var r := Write(host, number, input, h); r.Stopped? && r.failure.MissingEndpoint?
    ensures After(e, s, Write(host, number, input, h).sent) == After(e, s, h)
  {
    hide Write, Prepare, ReadPair, After, Unchanged;
    GuardedFailure(host, number, input, h);
    ExitsAfterSaving(host, number, input, h);
    SaveIsApplied(host, e, s, number, input, h);
  }

  lemma SamePinsIsEquivalence(a: seq<Pin>, b: seq<Pin>, c: seq<Pin>)
    requires SamePins(a, b) && SamePins(c, b)
    ensures SamePins(a, c)
  {
    forall field
      ensures Entries(FieldPins(a, field)) == Entries(FieldPins(c, field))
    {
      assert Entries(FieldPins(a, field)) == Entries(FieldPins(b, field));
      assert Entries(FieldPins(c, field)) == Entries(FieldPins(b, field));
    }
  }

  /** Every write of the run ends accountably. */
  ghost predicate AllAccountable(
    host: Host, e: Engine, s: Store, number: ToSafeInteger, origin: Store, inputs: seq<Input>, h: History)
    decreases |inputs|
  {
    inputs != [] ==>
      var r := Write(host, number, inputs[0], h);
      && Accountable(e, number, origin, After(e, s, h), After(e, s, r.sent), r)
      && AllAccountable(host, e, s, number, origin, inputs[1..], r.sent)
  }

  /**
   * However often a draft is opened and continued without submitting relationships: the published revision
   * and its pins stay, and every verified forward draft pins the same paragraphs in the same order per field,
   * at revisions no older than those published at the start.
   */
  lemma {:induction false} DraftsOnlyAdvance(
      host: Host, e: Engine, s: Store, number: ToSafeInteger, origin: Store, inputs: seq<Input>, h: History)
    requires IsStoreHost(host, e, s)
    requires forall input <- inputs :: SubmissionOf(input.relationships) == None
    requires Advanced(number, origin, After(e, s, h))
    requires AllAccountable(host, e, s, number, origin, inputs, h)
    ensures forall r <- WriteAll(host, number, inputs, h) :: r.Done? ==> KeepsOrigin(number, origin, r)
    decreases |inputs|
  {
    hide Write, Accountable, Advanced, KeepsOrigin, After;
    if inputs != [] {
      var runs := WriteAll(host, number, inputs, h);
      assert runs == [runs[0]] + WriteAll(host, number, inputs[1..], runs[0].sent);
      OneWriteAdvances(host, e, s, number, origin, inputs[0], h);
      DraftsOnlyAdvance(host, e, s, number, origin, inputs[1..], runs[0].sent);
    }
  }

  /** A revision id fixes what is published under it. */
  ghost predicate LiveIsFixed(e: Engine) {
    forall s: Store, save: Request | Saving(save) ::
      var s' := e.apply(s, save);
      s'.live.vid == s.live.vid ==> s'.live == s.live
  }

  /** The store is one of revisions: an id fixes its content, and a request that met no endpoint saved nothing. */
  ghost predicate KeepsRevisions(e: Engine) { LiveIsFixed(e) && DraftsAreFixed(e) && MissedSavesNothing(e) }

  /** The origin is still published, and the draft is no older. */
  ghost predicate Held(number: ToSafeInteger, origin: Store, s: Store) {
    s.live == origin.live && Advanced(number, origin, s)
  }

  /** Whatever an uncertain write did, the store it left is no worse than before. */
  ghost predicate UncertainIsHarmless(
    host: Host, e: Engine, s: Store, number: ToSafeInteger, origin: Store, inputs: seq<Input>, h: History)
    decreases |inputs|
  {
    inputs != [] ==>
      var r := Write(host, number, inputs[0], h);
      && (r.Stopped? && r.failure == Uncertain ==> Held(number, origin, After(e, s, r.sent)))
      && UncertainIsHarmless(host, e, s, number, origin, inputs[1..], r.sent)
  }

  /** If the published revision id is the one from before the save, nothing published has changed. */
  lemma LiveStays(host: Host, e: Engine, s: Store, number: ToSafeInteger, input: Input, h: History)
    requires IsStoreHost(host, e, s) && LiveIsFixed(e) && LooksModerated(host, h)
    requires var r := Write(host, number, input, h);
      Saved(r.sent) != Saved(h) && After(e, s, r.sent).live.vid == After(e, s, h).live.vid
    ensures After(e, s, Write(host, number, input, h).sent).live == After(e, s, h).live
  {
    hide Write, Prepare, After;
    SaveIsApplied(host, e, s, number, input, h);
  }

  lemma DoneIsAccountable(
      host: Host, e: Engine, s: Store, number: ToSafeInteger, origin: Store, input: Input, h: History)
    requires IsStoreHost(host, e, s) && LiveIsFixed(e) && LooksModerated(host, h)
    requires origin.live.moderated && origin.live.published && KeyReadable(origin)
    requires After(e, s, h).live == origin.live && Write(host, number, input, h).Done?
    ensures var r := Write(host, number, input, h);
      && Accountable(e, number, origin, After(e, s, h), After(e, s, r.sent), r)
      && After(e, s, r.sent).live == origin.live
  {
    hide Write, Prepare, After, Clean, Advanced, ForwardKept, SubmittedKept, Key, LiveIsFixed, IsStoreHost;
    ReturnMeansPublishedKept(host, number, input, h);
    VerifiedShowsStore(host, e, s, number, input, h);
    assert Saved(Write(host, number, input, h).sent) != Saved(h);
    LiveStays(host, e, s, number, input, h);
  }

  lemma StoppedIsAccountable(
      host: Host, e: Engine, s: Store, number: ToSafeInteger, origin: Store, input: Input, h: History)
    requires IsStoreHost(host, e, s) && KeepsRevisions(e) && LooksModerated(host, h)
    requires KeyReadable(origin) && Held(number, origin, After(e, s, h))
    requires var r := Write(host, number, input, h);
      && r.Stopped? && Saved(r.sent) != Saved(h)
      && (r.failure == Uncertain ==> Held(number, origin, After(e, s, r.sent)))
    ensures var r := Write(host, number, input, h);
      && Accountable(e, number, origin, After(e, s, h), After(e, s, r.sent), r)
      && After(e, s, r.sent).live == origin.live
  {
    hide Write, Prepare, ReadPair, After, Clean, Advanced, Key, LiveIsFixed, DraftsAreFixed, MissedSavesNothing,
         IsStoreHost;
    var r := Write(host, number, input, h);
    ExitsAfterSaving(host, number, input, h);
    if r.failure.MissingEndpoint? {
      MissingKeepsStore(host, e, s, number, input, h);
    } else if r.failure.Rejected? {
      SaveIsApplied(host, e, s, number, input, h);
      var p := Prepare(host, input, ReadVersion(host, Default, h).1);
      PairShowsStore(host, e, s, input.id, Uncertain, p.sent + [p.value.1]);
      LiveStays(host, e, s, number, input, h);
    }
  }

  lemma OneIsAccountable(
      host: Host, e: Engine, s: Store, number: ToSafeInteger, origin: Store, input: Input, h: History)
    requires IsStoreHost(host, e, s) && KeepsRevisions(e)
    requires origin.live.moderated && origin.live.published && KeyReadable(origin)
    requires Held(number, origin, After(e, s, h))
    requires var r := Write(host, number, input, h);
      r.Stopped? && r.failure == Uncertain ==> Held(number, origin, After(e, s, r.sent))
    ensures var r := Write(host, number, input, h);
      && Accountable(e, number, origin, After(e, s, h), After(e, s, r.sent), r)
      && After(e, s, r.sent).live == origin.live
  {
    var r := Write(host, number, input, h);
    hide Write, KeyReadable, Advanced, DraftsAreFixed, LiveIsFixed, MissedSavesNothing, IsStoreHost, LooksModerated;
    ExitsAreHonest(host, number, input, h);
    if Saved(r.sent) != Saved(h) { SavingLooksModerated(host, e, s, number, input, h); }
    if r.Done? {
      DoneIsAccountable(host, e, s, number, origin, input, h);
    } else if Saved(r.sent) != Saved(h) {
      StoppedIsAccountable(host, e, s, number, origin, input, h);
    }
  }

  lemma {:induction false} AllAreAccountable(
      host: Host, e: Engine, s: Store, number: ToSafeInteger, origin: Store, inputs: seq<Input>, h: History)
    requires IsStoreHost(host, e, s) && KeepsRevisions(e)
    requires origin.live.moderated && origin.live.published && KeyReadable(origin)
    requires forall input <- inputs :: SubmissionOf(input.relationships) == None
    requires Held(number, origin, After(e, s, h))
    requires UncertainIsHarmless(host, e, s, number, origin, inputs, h)
    ensures AllAccountable(host, e, s, number, origin, inputs, h)
    decreases |inputs|
  {
    hide Write, Accountable, Advanced, KeyReadable, KeepsRevisions, After;
    if inputs != [] {
      OneIsAccountable(host, e, s, number, origin, inputs[0], h);
      OneWriteAdvances(host, e, s, number, origin, inputs[0], h);
      AllAreAccountable(host, e, s, number, origin, inputs[1..], Write(host, number, inputs[0], h).sent);
    }
  }

  /**
   * On a store of revisions, from a published moderated entity on: any run of writes that submit no relationships,
   * refused, rejected, unreachable and uncertain ones included, as far as no uncertain one left a worse draft.
   */
  lemma RevisionsOnlyAdvance(
      host: Host, e: Engine, s: Store, number: ToSafeInteger, inputs: seq<Input>, h: History)
    requires IsStoreHost(host, e, s) && KeepsRevisions(e)
    requires var origin := After(e, s, h);
      && origin.live.moderated && origin.live.published && KeyReadable(origin) && !HasForwardDraft(origin)
      && UncertainIsHarmless(host, e, s, number, origin, inputs, h)
    requires forall input <- inputs :: SubmissionOf(input.relationships) == None
    ensures forall r <- WriteAll(host, number, inputs, h) :: r.Done? ==> KeepsOrigin(number, After(e, s, h), r)
  {
    hide Write, Advanced, KeyReadable, KeepsRevisions, KeepsOrigin, AllAccountable, UncertainIsHarmless, WriteAll;
    PublishedStart(number, After(e, s, h));
    AllAreAccountable(host, e, s, number, After(e, s, h), inputs, h);
    DraftsOnlyAdvance(host, e, s, number, After(e, s, h), inputs, h);
  }

  /** A run may start at any published revision without a draft. */
  lemma PublishedStart(number: ToSafeInteger, s: Store)
    requires !HasForwardDraft(s)
    ensures Advanced(number, s, s)
  {
  }

  // ----- exactly when the paragraphs are kept -----

  /** What the store would have the next write judged against: the forward draft's pins, or else the published ones. */
  function CurrentPins(s: Store): seq<Pin> {
    if HasForwardDraft(s) then Normalized(s.draft.value.pins) else Normalized(s.live.pins)
  }

  /** The store still pins the origin's paragraphs, per field and in order. */
  ghost predicate KeepsParagraphs(origin: Store, s: Store) {
    SameParagraphs(Normalized(origin.live.pins), CurrentPins(s))
  }

  /** A verified write showed the origin's published revision, and a draft of the same paragraphs. */
  ghost predicate ShowsParagraphs(origin: Store, r: Run<Outcome>)
    requires r.Done?
  {
    && r.value.Verified?
    && Some(r.value.after.liveVid) == origin.live.vid
    && SamePins(Normalized(origin.live.pins), r.value.after.pins)
    && Continuing(r.value.after)
    && SameParagraphs(Normalized(origin.live.pins), ForwardPins(r.value.after))
  }

  /** A verified write shows the origin's paragraphs exactly if what it was judged against had them. */
  lemma VerifiedShowsParagraphs(
      host: Host, e: Engine, s: Store, number: ToSafeInteger, origin: Store, input: Input, h: History)
    requires IsStoreHost(host, e, s) && LiveIsFixed(e)
    requires origin.live.moderated && origin.live.published && KeyReadable(origin)
    requires After(e, s, h).live == origin.live && SubmissionOf(input.relationships) == None
    requires Write(host, number, input, h).Done?
    ensures var r := Write(host, number, input, h);
      && After(e, s, r.sent).live == origin.live
      && (ShowsParagraphs(origin, r) <==> KeepsParagraphs(origin, After(e, s, h)))
      && (ShowsParagraphs(origin, r) <==> KeepsParagraphs(origin, After(e, s, r.sent)))
  {
    hide Write, Key, Clean, SamePins, Landed, LiveIsFixed, IsStoreHost, After, SameParagraphs, Normalized;
    var r := Write(host, number, input, h);
    ExitsAreHonest(host, number, input, h);
    SavingLooksModerated(host, e, s, number, input, h);
    DoneIsAccountable(host, e, s, number, origin, input, h);
    VerifiedShowsStore(host, e, s, number, input, h);
    var before, after := r.value.before, r.value.after;
    KeyIsFaithful(after.pins, before.pins);
    SamePinsIsEquivalence(Normalized(origin.live.pins), before.pins, after.pins);
    LandedKeepsParagraphs(number, Normalized(origin.live.pins), Baseline(before), ForwardPins(after));
  }

  /** A write that stopped otherwise than uncertain left the pins that the next write is judged against. */
  lemma StoppedKeepsCurrent(
      host: Host, e: Engine, s: Store, number: ToSafeInteger, origin: Store, input: Input, h: History)
    requires IsStoreHost(host, e, s) && KeepsRevisions(e)
    requires origin.live.moderated && After(e, s, h).live == origin.live
    requires var r := Write(host, number, input, h); r.Stopped? && r.failure != Uncertain
    ensures var s' := After(e, s, Write(host, number, input, h).sent);
      s'.live == origin.live && CurrentPins(s') == CurrentPins(After(e, s, h))
  {
    hide Write, Prepare, ReadPair, Key, LiveIsFixed, DraftsAreFixed, MissedSavesNothing, IsStoreHost, Normalized;
    var r := Write(host, number, input, h);
    ExitsAreHonest(host, number, input, h);
    if Saved(r.sent) != Saved(h) {
      SavingLooksModerated(host, e, s, number, input, h);
      ExitsAfterSaving(host, number, input, h);
      if r.failure.MissingEndpoint? {
        MissingKeepsStore(host, e, s, number, input, h);
      } else {
        RejectedKeepsCurrent(host, e, s, number, input, h);
      }
    }
  }

  lemma RejectedKeepsCurrent(host: Host, e: Engine, s: Store, number: ToSafeInteger, input: Input, h: History)
    requires IsStoreHost(host, e, s) && LiveIsFixed(e) && DraftsAreFixed(e)
    requires var r := Write(host, number, input, h); r.Stopped? && r.failure.Rejected?
    ensures var s' := After(e, s, Write(host, number, input, h).sent);
      s'.live == After(e, s, h).live && CurrentPins(s') == CurrentPins(After(e, s, h))
  {
    hide Write, Prepare, ReadPair, Key, Normalized, IsStoreHost;
    GuardedFailure(host, number, input, h);
    ExitsAfterSaving(host, number, input, h);
    SaveIsApplied(host, e, s, number, input, h);
    var p := Prepare(host, input, ReadVersion(host, Default, h).1);
    PairShowsStore(host, e, s, input.id, Uncertain, p.sent + [p.value.1]);
  }

  /** No uncertain write of the run changed what is published. */
  ghost predicate PublishedStays(
    host: Host, e: Engine, s: Store, number: ToSafeInteger, origin: Store, inputs: seq<Input>, h: History)
    decreases |inputs|
  {
    inputs != [] ==>
      var r := Write(host, number, inputs[0], h);
      && (r.Stopped? && r.failure == Uncertain ==> After(e, s, r.sent).live == origin.live)
      && PublishedStays(host, e, s, number, origin, inputs[1..], r.sent)
  }

  /** A verified write comes, and no uncertain one before it. */
  ghost predicate VerifiesNext(host: Host, number: ToSafeInteger, inputs: seq<Input>, h: History)
    decreases |inputs|
  {
    inputs != [] &&
    var r := Write(host, number, inputs[0], h);
    r.Done? || (r.failure != Uncertain && VerifiesNext(host, number, inputs[1..], r.sent))
  }

  /** Wherever an uncertain write lost paragraphs, no verified one follows before the next uncertain one. */
  ghost predicate LossesAreUnseen(
    host: Host, e: Engine, s: Store, number: ToSafeInteger, origin: Store, inputs: seq<Input>, h: History)
    decreases |inputs|
  {
    inputs != [] ==>
      var r := Write(host, number, inputs[0], h);
      && (r.Stopped? && r.failure == Uncertain && VerifiesNext(host, number, inputs[1..], r.sent) ==>
            KeepsParagraphs(origin, After(e, s, r.sent)))
      && LossesAreUnseen(host, e, s, number, origin, inputs[1..], r.sent)
  }

  ghost predicate AllShowParagraphs(origin: Store, runs: seq<Run<Outcome>>) {
    forall r <- runs :: r.Done? ==> ShowsParagraphs(origin, r)
  }

  lemma {:induction false} KeptFromHere(
      host: Host, e: Engine, s: Store, number: ToSafeInteger, origin: Store, inputs: seq<Input>, h: History)
    requires IsStoreHost(host, e, s) && KeepsRevisions(e)
    requires origin.live.moderated && origin.live.published && KeyReadable(origin)
    requires After(e, s, h).live == origin.live
    requires forall input <- inputs :: SubmissionOf(input.relationships) == None
    requires PublishedStays(host, e, s, number, origin, inputs, h)
    ensures AllShowParagraphs(origin, WriteAll(host, number, inputs, h)) <==>
      && (VerifiesNext(host, number, inputs, h) ==> KeepsParagraphs(origin, After(e, s, h)))
      && LossesAreUnseen(host, e, s, number, origin, inputs, h)
    decreases |inputs|
  {
    hide Write, KeepsRevisions, KeyReadable, ShowsParagraphs, SameParagraphs, After, CurrentPins, IsStoreHost;
    if inputs != [] {
      var r, rest := Write(host, number, inputs[0], h), inputs[1..];
      var runs := WriteAll(host, number, inputs, h);
      assert runs == [r] + WriteAll(host, number, rest, r.sent);
      OneMoreShows(origin, r, WriteAll(host, number, rest, r.sent));
      if r.Done? {
        FixedLive(e);
        VerifiedShowsParagraphs(host, e, s, number, origin, inputs[0], h);
      } else if r.failure != Uncertain {
        StoppedKeepsCurrent(host, e, s, number, origin, inputs[0], h);
      }
      KeptFromHere(host, e, s, number, origin, rest, r.sent);
    }
  }

  lemma FixedLive(e: Engine)
    requires KeepsRevisions(e)
    ensures LiveIsFixed(e)
  {}

  lemma OneMoreShows(origin: Store, r: Run<Outcome>, runs: seq<Run<Outcome>>)
    ensures AllShowParagraphs(origin, [r] + runs)
      <==> (r.Done? ==> ShowsParagraphs(origin, r)) && AllShowParagraphs(origin, runs)
  {
    hide ShowsParagraphs;
    assert forall x :: x in [r] + runs <==> x == r || x in runs;
  }

  /**
   * On a store of revisions, from a published moderated entity on, over any run that submits no relationships and whose
   * uncertain writes publish nothing: all verified drafts pin the origin's paragraphs exactly if no uncertain write
   * lost them and was then built upon by a verified one.
   */
  lemma ParagraphsAreKeptExactly(
      host: Host, e: Engine, s: Store, number: ToSafeInteger, inputs: seq<Input>, h: History)
    requires IsStoreHost(host, e, s) && KeepsRevisions(e)
    requires var origin := After(e, s, h);
      && origin.live.moderated && origin.live.published && KeyReadable(origin) && !HasForwardDraft(origin)
      && PublishedStays(host, e, s, number, origin, inputs, h)
    requires forall input <- inputs :: SubmissionOf(input.relationships) == None
    ensures var origin := After(e, s, h);
      AllShowParagraphs(origin, WriteAll(host, number, inputs, h))
      <==> LossesAreUnseen(host, e, s, number, origin, inputs, h)
  {
    hide Write, KeyReadable, KeepsRevisions, AllShowParagraphs, LossesAreUnseen, PublishedStays, VerifiesNext, WriteAll;
    hide Normalized, FieldPins;
    KeptFromHere(host, e, s, number, After(e, s, h), inputs, h);
  }

  // ----- the checks are not too strict -----

  /** The revisions are readable under this id, and the entity is published and moderated. */
  ghost predicate Readable(s: Store, id: string) {
    && s.live.id == id && s.live.vid.Some? && s.live.moderated && s.live.published
    && (s.draft.Some? ==> s.draft.value.id == id && s.draft.value.vid.Some?)
  }

  /** The site offers the draft endpoint, or there is no draft and no inventory to ask. */
  ghost predicate OffersRoute(host: Host, e: Engine, s: Store, input: Input) {
    if !input.canonicalDraftType || !host.sentinel then !HasForwardDraft(s)
    else
      && host.rawQuery
      && match e.inventory(s)
         case NoEndpoint => !HasForwardDraft(s)
         case Listed(inventory) =>
           && inventory.opensDrafts && ValidVid(inventory.live)
           && (inventory.working.Some? ==> ValidVid(inventory.working.value.vid))
           && forall p :: Shows(p, s) ==> Agrees(inventory, p)
         case _ => false
  }

  /** A save keeps the published revision and leaves a new draft that pins the baseline or newer. */
  ghost predicate SavesDraft(e: Engine, s: Store, number: ToSafeInteger, id: string, save: Request) {
    var s' := e.apply(s, save);
    && e.reply(s, save) == Written(Some(id))
    && s'.live == s.live
    && Readable(s', id)
    && HasForwardDraft(s')
    && (HasForwardDraft(s) ==> s'.draft.value.vid != s.draft.value.vid)
    && forall p :: Shows(p, s) ==> Landed(number, Baseline(p), Normalized(s'.draft.value.pins))
  }

  lemma PairIsReadable(host: Host, e: Engine, s: Store, id: string, failure: Failure, h: History)
    requires IsStoreHost(host, e, s) && Up(e, h) && Readable(After(e, s, h), id)
    ensures ReadPair(host, id, failure, h).Done?
  {
    hide After;
    var st := After(e, s, h);
    StoreAnswer(host, e, s, Default, h);
    var h1 := ReadVersion(host, Default, h).1;
    StoreAnswer(host, e, s, LatestVersion, h1);
    var h2 := ReadVersion(host, LatestVersion, h1).1;
    StaysUp(e, h, h1);
    StaysUp(e, h, h2);
    StoreAnswer(host, e, s, WorkingCopy, h2);
    assert e.noDraft(st) == Found(st.live) || Classify(WorkingCopy, e.noDraft(st)) == Absent;
  }

  lemma StoreInventory(host: Host, e: Engine, s: Store, h: History)
    requires IsStoreHost(host, e, s) && Up(e, h)
    ensures host.inventory(h + [ReadInventory]) == e.inventory(After(e, s, h))
  {
    SavedAfter(h, ReadInventory);
    var h' := h + [ReadInventory];
    assert h <= h';
    assert After(e, s, h') == After(e, s, h);
    assert StoreHost(e, s, host.sentinel, host.rawQuery).inventory(h') == e.inventory(After(e, s, h'));
  }

  lemma StoreReply(host: Host, e: Engine, s: Store, h: History, save: Request)
    requires IsStoreHost(host, e, s) && Saving(save)
    ensures host.write(h + [save]) == Answered(e, After(e, s, h), h, save)
    ensures After(e, s, h + [save]) == e.apply(After(e, s, h), save)
  {
    assert (h + [save])[..|h|] == h;
    SavedAfter(h, save);
    assert (Saved(h) + [save])[..|Saved(h)|] == Saved(h);
  }

  lemma SelectSucceeds(host: Host, e: Engine, s: Store, input: Input, before: Pair, h: History)
    requires IsStoreHost(host, e, s) && Up(e, h) && OffersRoute(host, e, After(e, s, h), input)
    requires Shows(before, After(e, s, h))
    ensures var r := SelectGoverned(host, input, before, h); r.Done? && (Continuing(before) ==> r.value.Some?)
  {
    hide Decimal, After, Agrees;
    StoreInventory(host, e, s, h);
    assert Continuing(before) <==> HasForwardDraft(After(e, s, h));
  }

  lemma PrepareSucceeds(host: Host, e: Engine, s: Store, input: Input, h: History)
    requires IsStoreHost(host, e, s) && Up(e, h) && Readable(After(e, s, h), input.id)
    requires IsForwardState(input.moderationState)
    requires OffersRoute(host, e, After(e, s, h), input)
    ensures var p := Prepare(host, input, h); p.Done? && Shows(p.value.0, After(e, s, h))
  {
    hide ReadPair, SelectGoverned, OffersRoute;
    PairIsReadable(host, e, s, input.id, RevisionIdentity, h);
    PairShowsStore(host, e, s, input.id, RevisionIdentity, h);
    var read := ReadPair(host, input.id, RevisionIdentity, h);
    StaysUp(e, h, read.sent);
    SelectSucceeds(host, e, s, input, read.value, read.sent);
  }

  /** On a store that behaves as documented and is up, drafting over a published entity is verified and returned. */
  lemma DraftingSucceeds(host: Host, e: Engine, s: Store, number: ToSafeInteger, input: Input, h: History)
    requires IsStoreHost(host, e, s) && Up(e, h)
    requires Readable(After(e, s, h), input.id) && OffersRoute(host, e, After(e, s, h), input)
    requires IsForwardState(input.moderationState) && SubmissionOf(input.relationships) == None
    requires forall save | Saving(save) :: SavesDraft(e, After(e, s, h), number, input.id, save)
    ensures Write(host, number, input, h).Done? && Write(host, number, input, h).value.Verified?
  {
    hide Prepare, Confirm, OffersRoute, SavesDraft;
    var st := After(e, s, h);
    StoreAnswer(host, e, s, Default, h);
    var h1 := ReadVersion(host, Default, h).1;
    StaysUp(e, h, h1);
    PrepareSucceeds(host, e, s, input, h1);
    var p := Prepare(host, input, h1);
    StaysUp(e, h1, p.sent);
    assert After(e, s, p.sent) == st;
    assert SavesDraft(e, st, number, input.id, p.value.1);
    ConfirmSucceeds(host, e, s, number, input, p.value.0, p.sent, p.value.1);
  }

  lemma ConfirmSucceeds(
      host: Host, e: Engine, s: Store, number: ToSafeInteger, input: Input, before: Pair, h: History, save: Request)
    requires IsStoreHost(host, e, s) && Up(e, h) && Saving(save)
    requires Shows(before, After(e, s, h)) && Readable(After(e, s, h), input.id)
    requires SavesDraft(e, After(e, s, h), number, input.id, save) && SubmissionOf(input.relationships) == None
    requires save.Draft? && save.working != "" ==> Continuing(before)
    ensures var r := Confirm(host, number, input, before, h + [save]); r.Done? && r.value.Verified?
  {
    hide ReadPair, AfterFailure, LossReads, After, PinKey.Key;
    var sent := h + [save];
    StoreReply(host, e, s, h, save);
    StaysUp(e, h, sent);
    PairIsReadable(host, e, s, input.id, Uncertain, sent);
    PairShowsStore(host, e, s, input.id, Uncertain, sent);
  }

  /** The plainest documented store: a save leaves a draft of the published pins under the next revision. */
  function PlainEngine(): Engine {
    Engine(
      (s: Store, save: Request) => Store(s.live, Some(Entity(s.live.id, true, false, Some("2"), s.live.pins))),
      (s: Store, save: Request) => Written(Some(s.live.id)),
      (s: Store) => NoEndpoint,
      (s: Store) => NotFound,
      (h: History) => None)
  }

  /** Published at revision 1, without a draft. */
  function PlainStore(pins: seq<Pin>): Store { Store(Entity("id", true, true, Some("1"), pins), None) }

  lemma PlainStoreSaves(number: ToSafeInteger, pins: seq<Pin>, save: Request)
    ensures SavesDraft(PlainEngine(), PlainStore(pins), number, "id", save)
  {
    hide Landed, Normalized, FieldPins;
    LandedIsReflexive(number, Normalized(pins));
  }

  lemma PlainStoreIsReady(pins: seq<Pin>)
    ensures HonestAlias(PlainEngine()) && After(PlainEngine(), PlainStore(pins), []) == PlainStore(pins)
    ensures Readable(PlainStore(pins), "id") && !HasForwardDraft(PlainStore(pins))
  {}

  /** Such a store exists: a first draft over any published pins is sent, verified and returned. */
  lemma FirstDraftIsOpened(number: ToSafeInteger, pins: seq<Pin>)
    ensures var host := StoreHost(PlainEngine(), PlainStore(pins), false, false);
      var r := Write(host, number, Input("id", false, Some("draft"), []), []);
      r.Done? && r.value.Verified?
  {
    var input := Input("id", false, Some("draft"), []);
    assert SubmissionOf(input.relationships) == None;
    hide Write, SavesDraft, PlainEngine, PlainStore, After, HonestAlias, Readable, SubmissionOf;
    PlainStoreIsReady(pins);
    forall save | Saving(save)
      ensures SavesDraft(PlainEngine(), PlainStore(pins), number, "id", save)
    {
      PlainStoreSaves(number, pins, save);
    }
    var host := StoreHost(PlainEngine(), PlainStore(pins), false, false);
    DraftingSucceeds(host, PlainEngine(), PlainStore(pins), number, input, []);
  }

  // ----- an uncertain write has to be looked at -----

  /** A store of revisions whose first draft loses all pins; later drafts keep those of the draft before. */
  function LossyEngine(): Engine {
    Engine(
      (s: Store, save: Request) =>
        Store(s.live, Some(Entity(
          "id", true, false,
          if s.draft.Some? && s.draft.value.vid == Some("2") then Some("3") else Some("2"),
          if s.draft.Some? then s.draft.value.pins else []))),
      (s: Store, save: Request) => Written(Some("id")),
      (s: Store) => Listed(Inventory(
        "1",
        if s.draft.Some? && s.draft.value.vid == Some("2")
        then Some(WorkingRow("2", [InventoryRow("en", false, "draft")])) else None,
        true, "en")),
      (s: Store) => NotFound,
      (h: History) => None)
  }

  const ONE_PIN := [Pin("field", "paragraph", Some("5"))]

  const WITHOUT_PINS := Store(PlainStore(ONE_PIN).live, Some(Entity("id", true, false, Some("2"), [])))

  function LossyHost(): Host { StoreHost(LossyEngine(), PlainStore(ONE_PIN), true, true) }

  const DRAFT_INPUT := Input("id", true, Some("draft"), [])

  lemma LossyKeepsRevisions()
    ensures KeepsRevisions(LossyEngine()) && IsStoreHost(LossyHost(), LossyEngine(), PlainStore(ONE_PIN))
  {}

  lemma SmallVidsAreValid()
    ensures ValidVid("1") && ValidVid("2")
  {
    assert Decimal([]) == 0 && "1"[..0] == [] && "2"[..0] == [];
  }

  lemma LossyInventoryAgrees(s: Store, p: Pair)
    requires (s == PlainStore(ONE_PIN) || s == WITHOUT_PINS) && Shows(p, s)
    ensures Agrees(LossyEngine().inventory(s).inventory, p)
  {
    hide Normalized, ValidVid;
    assert FindRow([InventoryRow("en", false, "draft")], "en") == Some(InventoryRow("en", false, "draft"));
  }

  lemma LossyOffersRoute(s: Store)
    requires s == PlainStore(ONE_PIN) || s == WITHOUT_PINS
    ensures Readable(s, "id") && OffersRoute(LossyHost(), LossyEngine(), s, DRAFT_INPUT)
  {
    SmallVidsAreValid();
    hide Decimal, ValidVid, Agrees, Shows;
    forall p | Shows(p, s)
      ensures Agrees(LossyEngine().inventory(s).inventory, p)
    {
      LossyInventoryAgrees(s, p);
    }
  }

  lemma PinsAreLost(number: ToSafeInteger)
    ensures !Landed(number, Normalized(ONE_PIN), Normalized([]))
  {
    assert Normalized(ONE_PIN) == ONE_PIN && Normalized([]) == [];
    assert "field" in Fields(ONE_PIN) && "field" !in Fields([]);
    DifferentFieldsDoNotLand(number, ONE_PIN, []);
  }

  /** The first draft is sent, and the re-read shows that its pins are gone. */
  lemma FirstIsUncertain(number: ToSafeInteger)
    ensures var r := Write(LossyHost(), number, DRAFT_INPUT, []);
      && r.Stopped? && r.failure == Uncertain
      && After(LossyEngine(), PlainStore(ONE_PIN), r.sent) == WITHOUT_PINS
  {
    var host, e, s := LossyHost(), LossyEngine(), PlainStore(ONE_PIN);
    LossyKeepsRevisions();
    LossyOffersRoute(s);
    assert After(e, s, []) == s && LooksModerated(host, []);
    var h1 := ReadVersion(host, Default, []).1;
    StoreAnswer(host, e, s, Default, []);
    hide ReadPair, Prepare, SelectGoverned, OffersRoute, After, ReadVersion, Landed, Key, LossReads, AfterFailure;
    PrepareSucceeds(host, e, s, DRAFT_INPUT, h1);
    var p := Prepare(host, DRAFT_INPUT, h1);
    SavedAfter(p.sent, p.value.1);
    assert Saved(p.sent + [p.value.1]) != Saved([]);
    LossyConfirm(number, p.value.0, p.sent, p.value.1);
    SaveIsApplied(host, e, s, number, DRAFT_INPUT, []);
  }

  lemma LossyForward(number: ToSafeInteger, before: Pair, after: Pair)
    requires Shows(before, PlainStore(ONE_PIN)) && Shows(after, WITHOUT_PINS)
    ensures Opening(before) && !ForwardKept(number, DRAFT_INPUT.relationships, before, after)
  {
    PinsAreLost(number);
    hide Landed, Normalized;
  }

  lemma LossyAnswers(h: History, save: Request)
    requires Saving(save) && After(LossyEngine(), PlainStore(ONE_PIN), h) == PlainStore(ONE_PIN)
    ensures LossyHost().write(h + [save]) == Written(Some("id"))
    ensures After(LossyEngine(), PlainStore(ONE_PIN), h + [save]) == WITHOUT_PINS
  {
    LossyKeepsRevisions();
    hide After;
    StoreReply(LossyHost(), LossyEngine(), PlainStore(ONE_PIN), h, save);
  }

  /** A save whose forward revision does not pass the check is uncertain, on any host. */
  lemma LosingPinsIsUncertain(host: Host, number: ToSafeInteger, input: Input, before: Pair, h: History)
    requires h != [] && Saving(h[|h| - 1]) && host.write(h) == Written(Some(input.id)) && Opening(before)
    requires var again := ReadPair(host, input.id, Uncertain, h);
      again.Done? && !ForwardKept(number, input.relationships, before, again.value)
    ensures var r := Confirm(host, number, input, before, h);
      r.Stopped? && r.failure == Uncertain
  {
    hide ReadPair, ForwardKept, PublishedKept, SubmittedKept, AfterFailure, LossReads;
  }

  lemma LossyConfirm(number: ToSafeInteger, before: Pair, h: History, save: Request)
    requires Saving(save) && After(LossyEngine(), PlainStore(ONE_PIN), h) == PlainStore(ONE_PIN)
    requires Shows(before, PlainStore(ONE_PIN))
    ensures var r := Confirm(LossyHost(), number, DRAFT_INPUT, before, h + [save]);
      r.Stopped? && r.failure == Uncertain
  {
    LossyKeepsRevisions();
    LossyOffersRoute(WITHOUT_PINS);
    LossyAnswers(h, save);
    hide LossyEngine, LossyHost, ReadPair, After, OffersRoute, KeepsRevisions, IsStoreHost, Confirm;
    hide Shows, ForwardKept, Readable;
    PairIsReadable(LossyHost(), LossyEngine(), PlainStore(ONE_PIN), "id", Uncertain, h + [save]);
    PairShowsStore(LossyHost(), LossyEngine(), PlainStore(ONE_PIN), "id", Uncertain, h + [save]);
    LossyForward(number, before, ReadPair(LossyHost(), "id", Uncertain, h + [save]).value);
    LosingPinsIsUncertain(LossyHost(), number, DRAFT_INPUT, before, h + [save]);
  }

  /** The next write continues the draft that lost its pins, and is verified against it. */
  lemma SecondIsVerified(number: ToSafeInteger, h: History)
    requires After(LossyEngine(), PlainStore(ONE_PIN), h) == WITHOUT_PINS
    ensures var r := Write(LossyHost(), number, DRAFT_INPUT, h);
      r.Done? && r.value.Verified? && !KeepsOrigin(number, PlainStore(ONE_PIN), r)
  {
    var host, e, s := LossyHost(), LossyEngine(), PlainStore(ONE_PIN);
    LossyKeepsRevisions();
    LossyOffersRoute(WITHOUT_PINS);
    forall save | Saving(save)
      ensures SavesDraft(e, WITHOUT_PINS, number, "id", save)
    {
      LossySaves(number, save);
    }
    assert SubmissionOf(DRAFT_INPUT.relationships) == None;
    StoreAnswer(host, e, s, Default, h);
    assert LooksModerated(host, h);
    hide Write, SavesDraft, After, OffersRoute, Landed, Prepare, Key, KeepsRevisions, IsStoreHost, Checked,
         LooksModerated;
    DraftingSucceeds(host, e, s, number, DRAFT_INPUT, h);
    VerifiedShowsStore(host, e, s, number, DRAFT_INPUT, h);
    ReturnMeansPublishedKept(host, number, DRAFT_INPUT, h);
    assert Saved(Write(host, number, DRAFT_INPUT, h).sent) != Saved(h);
    SaveIsApplied(host, e, s, number, DRAFT_INPUT, h);
    PinsAreLost(number);
  }

  lemma LossySaves(number: ToSafeInteger, save: Request)
    ensures SavesDraft(LossyEngine(), WITHOUT_PINS, number, "id", save)
  {
    LandedIsReflexive(number, Normalized([]));
    hide Landed;
  }

  /**
   * Why the run theorem judges an uncertain write by what it left: on a store of revisions an uncertain first draft can
   * lose the pins, and the continuation is then verified without them.
   */
  lemma UncertainCanLosePins(number: ToSafeInteger)
    ensures KeepsRevisions(LossyEngine())
    ensures var runs := WriteAll(LossyHost(), number, [DRAFT_INPUT, DRAFT_INPUT], []);
      && runs[0].Stopped? && runs[0].failure == Uncertain
      && runs[1].Done? && !KeepsOrigin(number, PlainStore(ONE_PIN), runs[1])
  {
    LossyKeepsRevisions();
    hide Write, KeepsOrigin, KeepsRevisions;
    FirstIsUncertain(number);
    SecondIsVerified(number, Write(LossyHost(), number, DRAFT_INPUT, []).sent);
    assert [DRAFT_INPUT, DRAFT_INPUT][1..] == [DRAFT_INPUT];
  }
}
