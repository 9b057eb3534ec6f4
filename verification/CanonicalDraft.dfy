/**
 * Draft writes on a library item or custom block: read the revisions, choose a route, send at most one
 * saving request, read again, and name the outcome. What the client does is a function of the answers
 * it gets; `Host` gives those answers as functions of all requests sent so far, so a statement about
 * every `Host` is a statement about every host, honest or not.
 */
module CanonicalDraft {
  import opened Common
  import opened Pins
  import PinKey

  /** The text of a revision id; revision ids are compared as text. */
  type Vid = string

  /** What is read of a revision. An empty id is an absent one. */
  datatype Entity = Entity(id: string, moderated: bool, published: bool, vid: Option<Vid>, pins: seq<Pin>)

  datatype Version = Default | LatestVersion | WorkingCopy

  datatype Request =
    | Read(version: Version)
    | ReadInventory
    | Patch(input: Input)
    | Draft(input: Input, live: Vid, working: Vid, langcode: string)

  predicate Saving(r: Request) { r.Patch? || r.Draft? }

  /** The requests sent so far, oldest first. */
  type History = seq<Request>

  function Saved(h: History): History {
    if h == [] then []
    else
      var last := h[|h| - 1];
      if Saving(last) then Saved(h[..|h| - 1]) + [last] else Saved(h[..|h| - 1])
  }

  lemma SavedAfter(h: History, r: Request)
    ensures Saved(h + [r]) == if Saving(r) then Saved(h) + [r] else Saved(h)
  {
    assert (h + [r])[..|h|] == h;
  }

  ghost predicate ReadsOnly(h: History, h': History) { h <= h' && Saved(h') == Saved(h) }

  /** What the client tests of a host error: its status and two phrases of its message. */
  datatype HostError = HostError(status: Option<int>, noPendingRevision: bool, missingEndpoint: bool)

  datatype ReadReply = Found(entity: Entity) | NotFound | ReadFailed(error: HostError)

  datatype InventoryRow = InventoryRow(langcode: string, published: bool, state: string)

  datatype WorkingRow = WorkingRow(vid: Vid, translations: seq<InventoryRow>)

  datatype Inventory = Inventory(live: Vid, working: Option<WorkingRow>, opensDrafts: bool, langcode: string)

  datatype InventoryReply =
    | NoEndpoint
    | InventoryFailed(error: HostError)
    | NoMeta
    | Listed(inventory: Inventory)

  /** A saving request answered with the id in its body, if any, or refused. */
  datatype WriteReply = Written(id: Option<string>) | WriteFailed(error: HostError)

  /** A backend: what it can do, and what it answers to the last request of a history. */
  datatype Host = Host(
    canRead: bool,
    sentinel: bool,
    rawQuery: bool,
    read: History -> ReadReply,
    inventory: History -> InventoryReply,
    write: History -> WriteReply)

  datatype Input = Input(
    id: string,
    canonicalDraftType: bool,
    moderationState: Option<string>,
    relationships: seq<Relationship>)

  datatype Failure =
    | RevisionIdentity
    | UnsupportedContinuation(live: Vid, working: Vid)
    | Uncertain
    | Rejected(error: HostError)
    | MissingEndpoint(error: HostError)
    | HostThrew(error: HostError)

  /** The two errors whose message says that no write was attempted. */
  predicate SaysNoWrite(f: Failure) { f.RevisionIdentity? || f.UnsupportedContinuation? }

  /** A step of the client: what it found or why it stopped, and the requests sent by then. */
  datatype Run<+T> = Done(value: T, sent: History) | Stopped(failure: Failure, sent: History) {
    predicate IsFailure() { Stopped? }
    function PropagateFailure<U>(): Run<U>
      requires Stopped?
    {
      Stopped(failure, sent)
    }
    function Extract(): (T, History)
      requires Done?
    {
      (value, sent)
    }
  }

  // ----- reading -----

  datatype VersionRead = Read(entity: Entity) | Absent | Denied | Failed | Unavailable

  function Classify(version: Version, reply: ReadReply): VersionRead {
    match reply
    case Found(entity) => VersionRead.Read(entity)
    case NotFound => Absent
    case ReadFailed(error) =>
      var missingDraft := version == WorkingCopy && error.status == Some(403) && error.noPendingRevision;
      if error.status == Some(404) || missingDraft then Absent
      else if error.status == Some(401) || error.status == Some(403) then Denied
      else Failed
  }

  function ReadVersion(host: Host, version: Version, h: History): (r: (VersionRead, History))
    ensures ReadsOnly(h, r.1)
  {
    if !host.canRead then (Unavailable, h)
    else
      SavedAfter(h, Request.Read(version));
      (Classify(version, host.read(h + [Request.Read(version)])), h + [Request.Read(version)])
  }

  predicate SameResource(id: string, entity: Entity) { entity.id == "" || entity.id == id }

  datatype Pair = Pair(
    entity: Entity,
    working: Option<Entity>,
    liveVid: Vid,
    latestVid: Vid,
    workingVid: Option<Vid>,
    pins: seq<Pin>)

  predicate Continuing(p: Pair) { p.workingVid.Some? && p.workingVid.value != p.liveVid }

  predicate Opening(p: Pair) { p.entity.moderated && p.entity.published }

  function ForwardPins(p: Pair): seq<Pin> {
    if p.working.Some? then Normalized(p.working.value.pins) else []
  }

  /** The default revision, the latest version and the working copy, read in that order. */
  function ReadPair(host: Host, id: string, failure: Failure, h: History): (r: Run<Pair>)
    ensures ReadsOnly(h, r.sent)
    ensures r.Stopped? ==> r.failure == failure
  {
    var (live, h1) := ReadVersion(host, Default, h);
    if !live.Read? || !SameResource(id, live.entity) then Stopped(failure, h1)
    else
      var (latest, h2) := ReadVersion(host, LatestVersion, h1);
      if !latest.Read? || !SameResource(id, latest.entity) then Stopped(failure, h2)
      else
        var (working, h3) := ReadVersion(host, WorkingCopy, h2);
        if working.Denied? || working.Failed? || working.Unavailable? then Stopped(failure, h3)
        else if working.Read? && !SameResource(id, working.entity) then Stopped(failure, h3)
        else if live.entity.vid.None? || latest.entity.vid.None? || (working.Read? && working.entity.vid.None?) then
          Stopped(failure, h3)
        else
          Done(Pair(
            live.entity,
            if working.Read? then Some(working.entity) else None,
            live.entity.vid.value,
            latest.entity.vid.value,
            if working.Read? then working.entity.vid else None,
            Normalized(live.entity.pins)), h3)
  }

  // ----- choosing the route -----

  const MAX_SAFE_INTEGER := 9007199254740991

  predicate ValidVid(vid: string) {
    && vid != ""
    && (forall i :: 0 <= i < |vid| ==> IsDigit(vid[i]))
    && vid[0] != '0'
    && Decimal(vid) <= MAX_SAFE_INTEGER
  }

  datatype Governed = Governed(live: Vid, working: Vid, langcode: string)

  function FindRow(rows: seq<InventoryRow>, langcode: string): Option<InventoryRow> {
    if rows == [] then None
    else if rows[0].langcode == langcode then Some(rows[0])
    else FindRow(rows[1..], langcode)
  }

  /** The working language has a row, and that row is not published. */
  predicate IsDraftRow(row: Option<InventoryRow>) {
    row.Some? && !row.value.published && row.value.state != "published"
  }

  /** Whether the inventory tells the same revisions as the reads did, and names a usable language. */
  predicate Agrees(inventory: Inventory, before: Pair) {
    && inventory.live == before.liveVid
    && (if Continuing(before)
        then inventory.working.Some? && inventory.working.value.vid == before.workingVid.value
        else inventory.working.None? || inventory.working.value.vid == before.liveVid)
    && inventory.langcode != "" && '\r' !in inventory.langcode && '\n' !in inventory.langcode
    && (Continuing(before) ==> IsDraftRow(FindRow(inventory.working.value.translations, inventory.langcode)))
  }

  function SelectGoverned(host: Host, input: Input, before: Pair, h: History): (r: Run<Option<Governed>>)
    ensures ReadsOnly(h, r.sent)
    ensures r.Stopped? ==> r.failure == RevisionIdentity
    ensures r.Done? && r.value.Some? ==>
              && host.sentinel && input.canonicalDraftType
              && r.value.value.live == before.liveVid
              && (r.value.value.working != "" <==> Continuing(before))
              && (Continuing(before) ==> r.value.value.working == before.workingVid.value)
  {
    if !input.canonicalDraftType || !host.sentinel then Done(None, h)
    else if !host.rawQuery then Stopped(RevisionIdentity, h)
    else
      var h1 := h + [ReadInventory];
      SavedAfter(h, ReadInventory);
      match host.inventory(h1)
      case NoEndpoint => Done(None, h1)
      case InventoryFailed(_) => Stopped(RevisionIdentity, h1)
      case NoMeta => Stopped(RevisionIdentity, h1)
      case Listed(inventory) =>
        if !ValidVid(inventory.live) || (inventory.working.Some? && !ValidVid(inventory.working.value.vid)) then
          Stopped(RevisionIdentity, h1)
        else if !inventory.opensDrafts then Done(None, h1)
        else if !Agrees(inventory, before) then Stopped(RevisionIdentity, h1)
        else
          Done(Some(Governed(
            before.liveVid, if Continuing(before) then before.workingVid.value else "", inventory.langcode)), h1)
  }

  // ----- after the saving request -----

  predicate Definitive(error: HostError) {
    error.status.Some? && 400 <= error.status.value < 500 && error.status != Some(408) && error.status != Some(429)
  }

  /** The re-read is what was read before the request. */
  predicate Unchanged(before: Pair, after: Pair) {
    && after.liveVid == before.liveVid
    && after.latestVid == after.liveVid
    && PinKey.Key(after.pins) == PinKey.Key(before.pins)
    && (if Continuing(before) then after.workingVid == before.workingVid
        else after.workingVid.None? || after.workingVid.value == before.liveVid)
  }

  /** The published revision and its pins are as before, and a new forward revision is there. */
  predicate PublishedKept(before: Pair, after: Pair) {
    && after.liveVid == before.liveVid
    && after.latestVid == after.liveVid
    && PinKey.Key(after.pins) == PinKey.Key(before.pins)
    && after.workingVid.Some?
    && after.workingVid.value != before.liveVid
    && (Continuing(before) ==> after.workingVid != before.workingVid)
  }

  function Baseline(before: Pair): seq<Pin> {
    if Continuing(before) then ForwardPins(before) else before.pins
  }

  /** The forward revision pins what was submitted, or else what the draft it grew from pinned. */
  ghost predicate ForwardKept(number: ToSafeInteger, rels: seq<Relationship>, before: Pair, after: Pair) {
    match SubmissionOf(rels)
    case Some(submission) => SubmissionLanded(number, submission, ForwardPins(after))
    case None => Landed(number, Baseline(before), ForwardPins(after))
  }

  function WrittenPins(after: Pair): seq<Pin> {
    if Continuing(after) then ForwardPins(after) else after.pins
  }

  ghost predicate SubmittedKept(number: ToSafeInteger, rels: seq<Relationship>, after: Pair) {
    var submission := SubmissionOf(rels);
    submission.Some? ==> SubmissionLanded(number, submission.value, WrittenPins(after))
  }

  /** What a normal return carries. A forward revision is returned with the two revision ids. */
  datatype Outcome =
    | PassedThrough(reply: WriteReply)
    | Verified(before: Pair, after: Pair, revisions: Option<(Vid, Vid)>)

  function Annotated(before: Pair, after: Pair): Outcome {
    Verified(before, after, if Continuing(after) then Some((before.liveVid, after.workingVid.value)) else None)
  }

  /** The two reads that only word an error message. */
  function LossReads(host: Host, h: History): (h': History)
    ensures ReadsOnly(h, h')
  {
    ReadVersion(host, WorkingCopy, ReadVersion(host, Default, h).1).1
  }

  function AfterFailure(host: Host, input: Input, before: Pair, error: HostError, h: History): (r: Run<Outcome>)
    ensures ReadsOnly(h, r.sent) && r.Stopped?
    ensures r.failure == Uncertain || r.failure == Rejected(error)
    ensures r.failure == Rejected(error) <==>
            && Definitive(error)
            && var again := ReadPair(host, input.id, Uncertain, h);
               again.Done? && Unchanged(before, again.value)
  {
    if Definitive(error) then
      var again := ReadPair(host, input.id, Uncertain, h);
      if again.Done? && Unchanged(before, again.value) then Stopped(Rejected(error), again.sent)
      else Stopped(Uncertain, LossReads(host, again.sent))
    else Stopped(Uncertain, LossReads(host, h))
  }

  /** The saving request is the last of `h`. */
  ghost function Confirm(host: Host, number: ToSafeInteger, input: Input, before: Pair, h: History): (r: Run<Outcome>)
    requires h != [] && Saving(h[|h| - 1])
    ensures ReadsOnly(h, r.sent)
    ensures r.Stopped? ==> !SaysNoWrite(r.failure)
  {
    var governed := h[|h| - 1].Draft?;
    match host.write(h)
    case WriteFailed(error) =>
      if governed && error.missingEndpoint then Stopped(MissingEndpoint(error), h)
      else AfterFailure(host, input, before, error, h)
    case Written(id) =>
      if id != Some(input.id) then Stopped(Uncertain, LossReads(host, h))
      else
        var (after, h1) :- ReadPair(host, input.id, Uncertain, h);
        if Opening(before) && !(PublishedKept(before, after) && ForwardKept(number, input.relationships, before, after))
        then Stopped(Uncertain, h1)
        else if !Opening(before) && !SubmittedKept(number, input.relationships, after) then Stopped(Uncertain, h1)
        else if governed && h[|h| - 1].working != "" && after.workingVid == before.workingVid then
          Stopped(Uncertain, h1)
        else Done(Annotated(before, after), h1)
  }

  predicate IsForwardState(state: Option<string>) { state == Some("draft") || state == Some("review") }

  /** The requests up to the saving one, or why there is none. */
  function Prepare(host: Host, input: Input, h: History): (r: Run<(Pair, Request)>)
    ensures ReadsOnly(h, r.sent)
    ensures r.Stopped? ==> SaysNoWrite(r.failure)
    ensures r.Done? ==>
              && Saving(r.value.1)
              && (r.value.1 == Patch(input) || r.value.1.Draft?)
              && r.value.0.latestVid == r.value.0.liveVid
              && (Continuing(r.value.0) ==> r.value.1.Draft? && r.value.1.working == r.value.0.workingVid.value)
              && (r.value.1.Draft? && r.value.1.working != "" ==> Continuing(r.value.0))
  {
    var (before, h1) :- ReadPair(host, input.id, RevisionIdentity, h);
    if before.latestVid != before.liveVid then Stopped(RevisionIdentity, h1)
    else if Opening(before) && !IsForwardState(input.moderationState) then Stopped(RevisionIdentity, h1)
    else
      var (governed, h2) :-
        if Continuing(before) || Opening(before) then SelectGoverned(host, input, before, h1) else Done(None, h1);
      match governed
      case Some(g) => Done((before, Draft(input, g.live, g.working, g.langcode)), h2)
      case None =>
        if Continuing(before) then Stopped(UnsupportedContinuation(before.liveVid, before.workingVid.value), h2)
        else Done((before, Patch(input)), h2)
  }

  /** One update of a library item or custom block. */
  ghost function Write(host: Host, number: ToSafeInteger, input: Input, h: History): Run<Outcome> {
    var (preview, h1) := ReadVersion(host, Default, h);
    if !preview.Read? then Stopped(RevisionIdentity, h1)
    else if !preview.entity.moderated then
      var h2 := h1 + [Patch(input)];
      match host.write(h2)
      case WriteFailed(error) => Stopped(HostThrew(error), h2)
      case _ => Done(PassedThrough(host.write(h2)), h2)
    else
      var ((before, save), h2) :- Prepare(host, input, h1);
      Confirm(host, number, input, before, h2 + [save])
  }

  /** The entity looked moderated when it was first read, so the guarded route is taken. */
  predicate LooksModerated(host: Host, h: History) {
    var preview := ReadVersion(host, Default, h).0;
    preview.Read? && preview.entity.moderated
  }

  // ----- what every run keeps, whatever the host answers -----

  /** At most one saving request is sent; two errors say that none was, and they are right. */
  lemma ExitsAreHonest(host: Host, number: ToSafeInteger, input: Input, h: History)
    ensures var r := Write(host, number, input, h);
      && h <= r.sent
      && (Saved(r.sent) == Saved(h)
          || exists save :: Saving(save) && Saved(r.sent) == Saved(h) + [save])
      && (r.Stopped? && SaysNoWrite(r.failure) <==> Saved(r.sent) == Saved(h))
  {
    hide Prepare, Confirm;
    var (preview, h1) := ReadVersion(host, Default, h);
    if preview.Read? {
      if preview.entity.moderated {
        var p := Prepare(host, input, h1);
        if p.Done? { SavedAfter(p.sent, p.value.1); }
      } else {
        SavedAfter(h1, Patch(input));
      }
    }
  }

  /** The ways to leave after the saving request that ends `sent`, and what each one has seen. */
  ghost predicate Earned(host: Host, input: Input, before: Pair, sent: History, r: Run<Outcome>)
    requires sent != []
  {
    var again := ReadPair(host, input.id, Uncertain, sent);
    match r
    case Done(outcome, _) => again.Done? && outcome == Annotated(before, again.value)
    case Stopped(failure, _) =>
      match failure
      case Uncertain => true
      case MissingEndpoint(error) =>
        host.write(sent) == WriteFailed(error) && error.missingEndpoint && sent[|sent| - 1].Draft?
      case Rejected(error) =>
        host.write(sent) == WriteFailed(error) && Definitive(error) && again.Done? && Unchanged(before, again.value)
      case _ => false
  }

  lemma ConfirmIsEarned(host: Host, number: ToSafeInteger, input: Input, before: Pair, h: History)
    requires h != [] && Saving(h[|h| - 1])
    ensures Earned(host, input, before, h, Confirm(host, number, input, before, h))
  {
    hide ReadPair, LossReads, ForwardKept, SubmittedKept, PublishedKept, Unchanged, AfterFailure;
  }

  /**
   * After a saving request on the guarded route every exit is a verified return, the host's own 4xx with
   * a re-read equal to the state before, a missing draft endpoint, or an uncertain result.
   */
  lemma ExitsAfterSaving(host: Host, number: ToSafeInteger, input: Input, h: History)
    requires LooksModerated(host, h) && Saved(Write(host, number, input, h).sent) != Saved(h)
    ensures var p := Prepare(host, input, ReadVersion(host, Default, h).1);
      var r := Write(host, number, input, h);
      && p.Done?
      && var (before, save) := p.value;
         && p.sent + [save] <= r.sent
         && Saved(r.sent) == Saved(h) + [save]
         && Earned(host, input, before, p.sent + [save], r)
  {
    hide ReadPair, Prepare, Confirm, Earned;
    var p := Prepare(host, input, ReadVersion(host, Default, h).1);
    assert p.Done?;
    SavedAfter(p.sent, p.value.1);
    ConfirmIsEarned(host, number, input, p.value.0, p.sent + [p.value.1]);
  }

  /** The exits of the guarded route after its saving request. */
  predicate IsGuardedExit(r: Run<Outcome>) {
    match r
    case Done(outcome, _) => outcome.Verified?
    case Stopped(failure, _) => failure.Uncertain? || failure.Rejected? || failure.MissingEndpoint?
  }

  /**
   * The four exits are all there are exactly if the first read looked moderated. Otherwise the update is passed
   * through: its reply is returned unverified, or the host's own error is thrown whatever its status.
   */
  lemma SavingExits(host: Host, number: ToSafeInteger, input: Input, h: History)
    requires Saved(Write(host, number, input, h).sent) != Saved(h)
    ensures IsGuardedExit(Write(host, number, input, h)) <==> LooksModerated(host, h)
    ensures !LooksModerated(host, h) ==>
              var sent := ReadVersion(host, Default, h).1 + [Patch(input)];
              Write(host, number, input, h) ==
              match host.write(sent)
              case WriteFailed(error) => Stopped(HostThrew(error), sent)
              case Written(id) => Done(PassedThrough(Written(id)), sent)
  {
    hide Prepare, Confirm, ReadPair, Unchanged;
    if LooksModerated(host, h) { ExitsAfterSaving(host, number, input, h); }
  }

  /** What a normal return has been checked for. */
  ghost predicate Checked(number: ToSafeInteger, rels: seq<Relationship>, before: Pair, after: Pair) {
    if Opening(before) then PublishedKept(before, after) && ForwardKept(number, rels, before, after)
    else SubmittedKept(number, rels, after)
  }

  lemma ConfirmChecks(host: Host, number: ToSafeInteger, input: Input, before: Pair, h: History)
    requires h != [] && Saving(h[|h| - 1])
    requires Confirm(host, number, input, before, h).Done?
    ensures var r := Confirm(host, number, input, before, h);
      && r.value.Verified? && r.value == Annotated(before, r.value.after)
      && Checked(number, input.relationships, before, r.value.after)
      && ReadPair(host, input.id, Uncertain, h) == Done(r.value.after, r.sent)
  {
    hide ReadPair, LossReads, AfterFailure, ForwardKept, SubmittedKept, PublishedKept;
  }

  lemma VerifiedParts(host: Host, number: ToSafeInteger, input: Input, h: History)
    requires Write(host, number, input, h).Done? && Write(host, number, input, h).value.Verified?
    ensures LooksModerated(host, h)
    ensures var p := Prepare(host, input, ReadVersion(host, Default, h).1);
      p.Done? && Write(host, number, input, h) == Confirm(host, number, input, p.value.0, p.sent + [p.value.1])
  {
    hide Prepare, Confirm, ReadVersion, Saved;
  }

  /**
   * A normal return means that exactly one saving request was sent and that the reads after it showed
   * the published revision unharmed, with a new forward revision if the entity was published.
   */
  lemma ReturnMeansPublishedKept(host: Host, number: ToSafeInteger, input: Input, h: History)
    requires LooksModerated(host, h)
    requires Write(host, number, input, h).Done?
    ensures var r := Write(host, number, input, h);
      && r.value.Verified? && |Saved(r.sent)| == |Saved(h)| + 1
      && var before, after := r.value.before, r.value.after;
         && before.latestVid == before.liveVid
         && Checked(number, input.relationships, before, after)
         && (Opening(before) ==> r.value.revisions == Some((before.liveVid, after.workingVid.value)))
  {
    hide Prepare, ReadPair, LossReads, Confirm, ForwardKept, SubmittedKept;
    var h1 := ReadVersion(host, Default, h).1;
    var p := Prepare(host, input, h1);
    assert p.Done?;
    SavedAfter(p.sent, p.value.1);
    ConfirmChecks(host, number, input, p.value.0, p.sent + [p.value.1]);
  }

  lemma PreparedFromReads(host: Host, input: Input, h: History)
    requires Prepare(host, input, h).Done?
    ensures var p := Prepare(host, input, h);
      var read := ReadPair(host, input.id, RevisionIdentity, h);
      read.Done? && read.value == p.value.0 && read.sent <= p.sent
  {
    hide ReadPair, SelectGoverned;
  }

  /** A canonical PATCH goes to a moderated entity only when no forward draft was read. */
  lemma PatchOnlyWithoutDraft(host: Host, number: ToSafeInteger, input: Input, h: History)
    requires LooksModerated(host, h)
    requires Saved(Write(host, number, input, h).sent) == Saved(h) + [Patch(input)]
    ensures var read := ReadPair(host, input.id, RevisionIdentity, ReadVersion(host, Default, h).1);
      && read.Done? && !Continuing(read.value) && read.value.latestVid == read.value.liveVid
      && read.sent <= Write(host, number, input, h).sent
  {
    hide Prepare, Confirm, ReadPair, ReadVersion;
    var p := Prepare(host, input, ReadVersion(host, Default, h).1);
    assert p.Done?;
    SavedAfter(p.sent, p.value.1);
    assert (Saved(h) + [p.value.1])[|Saved(h)|] == (Saved(h) + [Patch(input)])[|Saved(h)|];
    PreparedFromReads(host, input, ReadVersion(host, Default, h).1);
  }
}
