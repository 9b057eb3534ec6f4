/** The draft client as it runs: requests are sent one by one, and each method does what its function says. */
module DraftClient {
  import opened Common
  import opened Pins
  import PinKey
  import opened CanonicalDraft

  /** What the check after a write over a published entity can find wrong. */
  datatype Problem =
    | LiveChanged
    | LatestIsNotLive
    | PublishedPinsChanged
    | NoForwardRevision
    | DidNotAdvance
    | SubmissionNotPinned
    | OtherPinsChanged

  ghost function AsRun<T>(r: Result<T, Failure>, sent: History): Run<T> {
    match r
    case Ok(value) => Done(value, sent)
    case Err(failure) => Stopped(failure, sent)
  }

  function Note(wrong: bool, problem: Problem): (note: seq<Problem>)
    ensures problem in note <==> wrong
    ensures note == [] || note == [problem]
  {
    if wrong then [problem] else []
  }

  /** What is wrong with the revisions and with the published pins. */
  function PublishedProblems(before: Pair, after: Pair): (problems: seq<Problem>)
    ensures problems == [] <==> PublishedKept(before, after)
    ensures LiveChanged in problems <==> after.liveVid != before.liveVid
    ensures LatestIsNotLive in problems <==> after.latestVid != after.liveVid
    ensures PublishedPinsChanged in problems <==> PinKey.Key(after.pins) != PinKey.Key(before.pins)
    ensures NoForwardRevision in problems <==> after.workingVid.None? || after.workingVid.value == before.liveVid
    ensures DidNotAdvance in problems <==> Continuing(before) && after.workingVid == before.workingVid
  {
    var none := after.workingVid.None? || after.workingVid.value == before.liveVid;
    Note(after.liveVid != before.liveVid, LiveChanged)
    + Note(after.latestVid != after.liveVid, LatestIsNotLive)
    + Note(PinKey.Key(after.pins) != PinKey.Key(before.pins), PublishedPinsChanged)
    + Note(none, NoForwardRevision)
    + Note(!none && Continuing(before) && after.workingVid == before.workingVid, DidNotAdvance)
  }

  /** Every problem found is listed, and the list is empty exactly when the write is good. */
  method AssertPublishedPreserved(number: ToSafeInteger, before: Pair, after: Pair, rels: seq<Relationship>)
    returns (problems: seq<Problem>)
    ensures PublishedProblems(before, after) <= problems
    ensures |problems| <= |PublishedProblems(before, after)| + 1
    ensures ForwardKept(number, rels, before, after) <==> problems == PublishedProblems(before, after)
    ensures problems == [] <==> PublishedKept(before, after) && ForwardKept(number, rels, before, after)
  {
    hide PinKey.Key, PublishedKept, ForwardKept, Note;
    problems := Note(after.liveVid != before.liveVid, LiveChanged);
    problems := problems + Note(after.latestVid != after.liveVid, LatestIsNotLive);
    var keyAfter := PinKey.PinKey(after.pins);
    var keyBefore := PinKey.PinKey(before.pins);
    problems := problems + Note(keyAfter != keyBefore, PublishedPinsChanged);
    var none := after.workingVid.None? || after.workingVid.value == before.liveVid;
    problems := problems + Note(none, NoForwardRevision);
    problems := problems + Note(!none && Continuing(before) && after.workingVid == before.workingVid, DidNotAdvance);
    assert problems == PublishedProblems(before, after);
    hide PublishedProblems;
    var kept, problem := ForwardProblem(number, before, after, rels);
    problems := problems + Note(!kept, problem);
  }

  method ForwardProblem(number: ToSafeInteger, before: Pair, after: Pair, rels: seq<Relationship>)
    returns (kept: bool, problem: Problem)
    ensures kept <==> ForwardKept(number, rels, before, after)
    ensures problem == if SubmissionOf(rels).Some? then SubmissionNotPinned else OtherPinsChanged
  {
    var submitted := SubmittedParagraphPins(rels);
    var forward := ForwardPins(after);
    if submitted.Some? {
      kept := SubmittedPinsLanded(number, submitted.value.pins, InFields(forward, submitted.value.fields));
      problem := SubmissionNotPinned;
    } else {
      kept := SubmittedPinsLanded(number, Baseline(before), forward);
      problem := OtherPinsChanged;
    }
  }

  class DraftClient {
    const host: Host
    const number: ToSafeInteger
    var sent: History

    constructor (host: Host, number: ToSafeInteger, sent: History)
      ensures this.host == host && this.number == number && this.sent == sent
    {
      this.host, this.number, this.sent := host, number, sent;
    }

    method GetVersion(version: Version) returns (r: VersionRead)
      modifies this
      ensures (r, sent) == ReadVersion(host, version, old(sent))
    {
      if !host.canRead { return Unavailable; }
      sent := sent + [Request.Read(version)];
      r := Classify(version, host.read(sent));
    }

    method GetPair(id: string, failure: Failure) returns (r: Result<Pair, Failure>)
      modifies this
      ensures AsRun(r, sent) == ReadPair(host, id, failure, old(sent))
    {
      hide ReadVersion, Normalized;
      var live := GetVersion(Default);
      if !live.Read? || !SameResource(id, live.entity) { return Err(failure); }
      var latest := GetVersion(LatestVersion);
      if !latest.Read? || !SameResource(id, latest.entity) { return Err(failure); }
      var working := GetVersion(WorkingCopy);
      if working.Denied? || working.Failed? || working.Unavailable? { return Err(failure); }
      if working.Read? && !SameResource(id, working.entity) { return Err(failure); }
      var workingVid := if working.Read? then working.entity.vid else None;
      if live.entity.vid.None? || latest.entity.vid.None? || (working.Read? && workingVid.None?) {
        return Err(failure);
      }
      return Ok(Pair(
        live.entity, if working.Read? then Some(working.entity) else None,
        live.entity.vid.value, latest.entity.vid.value, workingVid, Normalized(live.entity.pins)));
    }

    method Select(input: Input, before: Pair) returns (r: Result<Option<Governed>, Failure>)
      modifies this
      ensures AsRun(r, sent) == SelectGoverned(host, input, before, old(sent))
    {
      hide Decimal;
      if !input.canonicalDraftType || !host.sentinel { return Ok(None); }
      if !host.rawQuery { return Err(RevisionIdentity); }
      sent := sent + [ReadInventory];
      match host.inventory(sent)
      case NoEndpoint =>
        return Ok(None);
      case InventoryFailed(_) =>
        return Err(RevisionIdentity);
      case NoMeta =>
        return Err(RevisionIdentity);
      case Listed(inventory) =>
        if !ValidVid(inventory.live) || (inventory.working.Some? && !ValidVid(inventory.working.value.vid)) {
          return Err(RevisionIdentity);
        }
        if !inventory.opensDrafts { return Ok(None); }
        if inventory.live != before.liveVid { return Err(RevisionIdentity); }
        var continuing := Continuing(before);
        if continuing {
          if inventory.working.None? || inventory.working.value.vid != before.workingVid.value {
            return Err(RevisionIdentity);
          }
        } else if inventory.working.Some? && inventory.working.value.vid != before.liveVid {
          return Err(RevisionIdentity);
        }
        if inventory.langcode == "" || '\r' in inventory.langcode || '\n' in inventory.langcode {
          return Err(RevisionIdentity);
        }
        if continuing {
          var row := FindRow(inventory.working.value.translations, inventory.langcode);
          if row.None? || row.value.published || row.value.state == "published" { return Err(RevisionIdentity); }
        }
        return Ok(Some(Governed(
          before.liveVid, if continuing then before.workingVid.value else "", inventory.langcode)));
    }

    /** Null when the re-read itself failed. */
    method PublishedStateUnchanged(id: string, before: Pair) returns (r: Option<bool>)
      modifies this
      ensures var again := ReadPair(host, id, Uncertain, old(sent));
        sent == again.sent && r == if again.Done? then Some(Unchanged(before, again.value)) else None
    {
      hide ReadPair;
      var again := GetPair(id, Uncertain);
      if again.Err? { return None; }
      var after := again.value;
      if after.liveVid != before.liveVid { return Some(false); }
      if after.latestVid != after.liveVid { return Some(false); }
      var keyAfter := PinKey.PinKey(after.pins);
      var keyBefore := PinKey.PinKey(before.pins);
      if keyAfter != keyBefore { return Some(false); }
      if Continuing(before) { return Some(after.workingVid == before.workingVid); }
      if after.workingVid.Some? && after.workingVid.value != before.liveVid { return Some(false); }
      return Some(true);
    }

    method LossDetail()
      modifies this
      ensures sent == LossReads(host, old(sent))
    {
      var live := GetVersion(Default);
      var working := GetVersion(WorkingCopy);
    }

    method FailedSave(input: Input, before: Pair, error: HostError) returns (failure: Failure)
      modifies this
      ensures Stopped(failure, sent) == AfterFailure(host, input, before, error, old(sent))
    {
      hide ReadPair, LossReads, Unchanged;
      if Definitive(error) {
        var same := PublishedStateUnchanged(input.id, before);
        if same == Some(true) { return Rejected(error); }
      }
      LossDetail();
      return Uncertain;
    }

    /** Send the saving request and judge the result by what is read afterwards. */
    method Save(input: Input, before: Pair, save: Request) returns (r: Result<Outcome, Failure>)
      requires Saving(save)
      modifies this
      ensures AsRun(r, sent) == Confirm(host, number, input, before, old(sent) + [save])
    {
      hide ReadPair, LossReads, AfterFailure, PublishedKept, ForwardKept, SubmissionLanded;
      sent := sent + [save];
      var reply := host.write(sent);
      if reply.WriteFailed? {
        if save.Draft? && reply.error.missingEndpoint { return Err(MissingEndpoint(reply.error)); }
        var failure := FailedSave(input, before, reply.error);
        return Err(failure);
      }
      if reply.id != Some(input.id) {
        LossDetail();
        return Err(Uncertain);
      }
      var read := GetPair(input.id, Uncertain);
      if read.Err? { return Err(read.error); }
      var after := read.value;
      if Opening(before) {
        var problems := AssertPublishedPreserved(number, before, after, input.relationships);
        if problems != [] { return Err(Uncertain); }
      } else {
        var kept := AssertSubmittedPins(after, input.relationships);
        if !kept { return Err(Uncertain); }
      }
      if save.Draft? && save.working != "" && after.workingVid == before.workingVid { return Err(Uncertain); }
      return Ok(Annotated(before, after));
    }

    method AssertSubmittedPins(after: Pair, rels: seq<Relationship>) returns (kept: bool)
      ensures kept <==> SubmittedKept(number, rels, after)
    {
      var submitted := SubmittedParagraphPins(rels);
      if submitted.None? { return true; }
      kept := SubmittedPinsLanded(
        number, submitted.value.pins, InFields(WrittenPins(after), submitted.value.fields));
    }

    method WriteCanonicalModeratedEntity(input: Input) returns (r: Result<Outcome, Failure>)
      modifies this
      ensures AsRun(r, sent) == Write(host, number, input, old(sent))
    {
      hide ReadVersion, ReadPair, SelectGoverned, Confirm;
      var preview := GetVersion(Default);
      if preview.Read? && !preview.entity.moderated {
        sent := sent + [Patch(input)];
        var reply := host.write(sent);
        if reply.WriteFailed? { return Err(HostThrew(reply.error)); }
        return Ok(PassedThrough(reply));
      }
      if !preview.Read? { return Err(RevisionIdentity); }
      var read := GetPair(input.id, RevisionIdentity);
      if read.Err? { return Err(read.error); }
      var before := read.value;
      if before.latestVid != before.liveVid { return Err(RevisionIdentity); }
      if Opening(before) && !IsForwardState(input.moderationState) { return Err(RevisionIdentity); }
      var governed: Option<Governed> := None;
      if Continuing(before) || Opening(before) {
        var selected := Select(input, before);
        if selected.Err? { return Err(selected.error); }
        governed := selected.value;
      }
      if governed.Some? {
        var g := governed.value;
        r := Save(input, before, Draft(input, g.live, g.working, g.langcode));
        return;
      }
      if Continuing(before) { return Err(UnsupportedContinuation(before.liveVid, before.workingVid.value)); }
      r := Save(input, before, Patch(input));
    }
  }
}
