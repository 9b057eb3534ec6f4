/**
 * The guarded write told by the answers it gets: which of them end it before anything is saved, which request
 * is sent otherwise, and what the answers after it must show. Statuses, texts and bounds are written out here.
 */
module CanonicalLaws {
  import opened Common
  import opened Pins
  import PinKey
  import opened CanonicalDraft

  /** What is saved are the patches and the drafts, in the order sent. */
  lemma SavedAreTheWrites(h: History, input: Input, live: Vid, working: Vid, langcode: string, version: Version)
    ensures Saved([]) == []
    ensures Saved(h + [Patch(input)]) == Saved(h) + [Patch(input)]
    ensures Saved(h + [Draft(input, live, working, langcode)]) == Saved(h) + [Draft(input, live, working, langcode)]
    ensures Saved(h + [Request.Read(version)]) == Saved(h) == Saved(h + [ReadInventory])
  {
    SavedAfter(h, Patch(input));
    SavedAfter(h, Draft(input, live, working, langcode));
    SavedAfter(h, Request.Read(version));
    SavedAfter(h, ReadInventory);
  }

  /** What an answer counts as. The phrase about a missing draft counts on a 403 for the working copy alone. */
  lemma AnswersAreClassified(version: Version, reply: ReadReply)
    ensures var c := Classify(version, reply);
      var status := if reply.ReadFailed? then reply.error.status else None;
      var phrase := status == Some(403) && version == WorkingCopy && reply.error.noPendingRevision;
      && (reply.Found? <==> c.Read?) && (reply.Found? ==> c == VersionRead.Read(reply.entity))
      && (c == Absent <==> reply == NotFound || status == Some(404) || phrase)
      && (c == Denied <==> status == Some(401) || (status == Some(403) && !phrase))
      && c != Unavailable
  {}

  // ----- the pair of revisions -----

  /** A revision of the entity asked for, with a revision id. */
  ghost predicate Identifies(id: string, reply: ReadReply) {
    reply.Found? && (reply.entity.id == id || reply.entity.id == "") && reply.entity.vid.Some?
  }

  /** How a backend says that there is no working copy. */
  ghost predicate SaysNoDraft(reply: ReadReply) {
    || reply.NotFound?
    || (reply.ReadFailed? && reply.error.status == Some(404))
    || (reply.ReadFailed? && reply.error.status == Some(403) && reply.error.noPendingRevision)
  }

  /** Three reads, each in its place, and the pair is made of their answers. */
  lemma PairIsExact(host: Host, id: string, failure: Failure, h: History)
    ensures var r := ReadPair(host, id, failure, h);
      var h1 := h + [Request.Read(Default)];
      var h2 := h1 + [Request.Read(LatestVersion)];
      var h3 := h2 + [Request.Read(WorkingCopy)];
      && (r.Done? <==>
            && host.canRead
            && Identifies(id, host.read(h1)) && Identifies(id, host.read(h2))
            && (Identifies(id, host.read(h3)) || SaysNoDraft(host.read(h3))))
      && (r.Done? ==>
            && r.sent == h3
            && r.value.entity == host.read(h1).entity
            && Some(r.value.liveVid) == host.read(h1).entity.vid
            && Some(r.value.latestVid) == host.read(h2).entity.vid
            && r.value.pins == Normalized(host.read(h1).entity.pins)
            && (if host.read(h3).Found?
                then r.value.working == Some(host.read(h3).entity) && r.value.workingVid == host.read(h3).entity.vid
                else r.value.working == None && r.value.workingVid == None))
      && (r.Stopped? ==> r.failure == failure && (r.sent == h || r.sent == h1 || r.sent == h2 || r.sent == h3))
  {
    hide Normalized, Saved;
  }

  /** Only a read that fails ends the reading early: the revisions after it are not asked for. */
  lemma ReadingStopsEarly(host: Host, id: string, failure: Failure, h: History)
    ensures var sent := ReadPair(host, id, failure, h).sent;
      var h1 := h + [Request.Read(Default)];
      var h2 := h1 + [Request.Read(LatestVersion)];
      && (sent == h <==> !host.canRead)
      && (host.canRead ==>
            (sent == h1 <==>
               !(host.read(h1).Found? && (host.read(h1).entity.id == "" || host.read(h1).entity.id == id))))
      && (host.canRead && sent != h1 ==>
            (sent == h2 <==>
               !(host.read(h2).Found? && (host.read(h2).entity.id == "" || host.read(h2).entity.id == id))))
  {
    hide Normalized, Saved;
  }

  // ----- revision ids of the inventory -----

  lemma {:induction false} DecimalIsPositive(s: string)
    requires s != "" && AllDigits(s) && s[0] != '0'
    ensures Decimal(s) > 0
  {
    if |s| > 1 { DecimalIsPositive(s[..|s| - 1]); }
  }

  lemma {:induction false} NumbersAreWritten(s: string)
    requires s != "" && AllDigits(s) && s[0] != '0'
    ensures Digits(Decimal(s)) == s
  {
    DecimalIsPositive(s);
    if |s| > 1 {
      NumbersAreWritten(s[..|s| - 1]);
      DecimalIsPositive(s[..|s| - 1]);
      var last := s[|s| - 1] as int - '0' as int;
      assert Decimal(s) / 10 == Decimal(s[..|s| - 1]) && Decimal(s) % 10 == last;
      assert s == s[..|s| - 1] + [s[|s| - 1]];
    }
  }

  lemma {:induction false} DigitsLead(n: nat)
    requires n > 0
    ensures Digits(n)[0] != '0'
  {
    if n >= 10 { DigitsLead(n / 10); }
  }

  /** A usable revision id is the text of a number from 1 to the largest one that is exact. */
  lemma VidsAreNumbers(vid: string)
    ensures ValidVid(vid) <==> exists n: nat :: 1 <= n <= 9007199254740991 && vid == Digits(n)
  {
    if ValidVid(vid) {
      NumbersAreWritten(vid);
      DecimalIsPositive(vid);
    }
    forall n: nat | 1 <= n <= 9007199254740991 && vid == Digits(n) ensures ValidVid(vid) {
      DigitsAreRead(n);
      DigitsLead(n);
    }
  }

  /** The row of a language is the first one that names it. */
  lemma {:induction false} RowIsFirst(rows: seq<InventoryRow>, langcode: string, i: nat)
    requires i < |rows| && rows[i].langcode == langcode
    requires forall j :: 0 <= j < i ==> rows[j].langcode != langcode
    ensures FindRow(rows, langcode) == Some(rows[i])
  {
    if i > 0 { RowIsFirst(rows[1..], langcode, i - 1); }
  }

  lemma {:induction false} RowIsMissing(rows: seq<InventoryRow>, langcode: string)
    ensures FindRow(rows, langcode).None? <==> forall row <- rows :: row.langcode != langcode
  {
    if rows != [] {
      RowIsMissing(rows[1..], langcode);
      assert rows == [rows[0]] + rows[1..];
    }
  }

  // ----- the route -----

  /** A forward draft was read. */
  ghost predicate HasDraft(p: Pair) { p.workingVid.Some? && p.workingVid.value != p.liveVid }

  ghost predicate IsPublished(p: Pair) { p.entity.moderated && p.entity.published }

  /** The backend has no draft operation for this entity. */
  ghost predicate NoOperation(host: Host, input: Input, h: History) {
    || !input.canonicalDraftType || !host.sentinel
    || (host.rawQuery && host.inventory(h + [ReadInventory]).NoEndpoint?)
    || (host.rawQuery
        && match host.inventory(h + [ReadInventory])
           case Listed(i) => !i.opensDrafts && ValidVid(i.live) && (i.working.Some? ==> ValidVid(i.working.value.vid))
           case _ => false)
  }

  /** The inventory offers drafts, tells what was read, and names a language whose forward row is a draft. */
  ghost predicate Offers(i: Inventory, p: Pair) {
    && i.opensDrafts
    && ValidVid(i.live) && (i.working.Some? ==> ValidVid(i.working.value.vid))
    && i.live == p.liveVid
    && (HasDraft(p) ==> i.working.Some? && Some(i.working.value.vid) == p.workingVid)
    && (!HasDraft(p) && i.working.Some? ==> i.working.value.vid == p.liveVid)
    && i.langcode != "" && (forall c <- i.langcode :: c != '\r' && c != '\n')
    && (HasDraft(p) ==>
          var row := FindRow(i.working.value.translations, i.langcode);
          row.Some? && !row.value.published && row.value.state != "published")
  }

  /** What a draft request says is what was read: both revisions, and the language of the inventory. */
  lemma RouteIsExact(host: Host, input: Input, p: Pair, h: History)
    ensures var r := SelectGoverned(host, input, p, h);
      && (r.Done? && r.value == None <==> NoOperation(host, input, h))
      && (r.Done? && r.value.Some? <==>
            && input.canonicalDraftType && host.sentinel && host.rawQuery
            && host.inventory(h + [ReadInventory]).Listed?
            && Offers(host.inventory(h + [ReadInventory]).inventory, p))
      && (r.Done? && r.value.Some? ==>
            r.value.value == Governed(
              p.liveVid,
              if HasDraft(p) then p.workingVid.value else "",
              host.inventory(h + [ReadInventory]).inventory.langcode))
      && r.sent == if input.canonicalDraftType && host.sentinel && host.rawQuery then h + [ReadInventory] else h
  {
    hide ValidVid, FindRow, Saved;
  }

  // ----- what is sent -----

  /**
   * A published moderated entity is written only as a draft or for review. For any other state nothing is saved and
   * the exit says so.
   */
  lemma PublishedNeedsForwardState(host: Host, number: ToSafeInteger, input: Input, h: History)
    requires LooksModerated(host, h)
    ensures var r := Write(host, number, input, h);
      var read := ReadPair(host, input.id, RevisionIdentity, h + [Request.Read(Default)]);
      read.Done? && read.value.latestVid == read.value.liveVid
      && read.value.entity.moderated && read.value.entity.published ==>
        && (Saved(r.sent) != Saved(h) ==>
              input.moderationState == Some("draft") || input.moderationState == Some("review"))
        && (input.moderationState != Some("draft") && input.moderationState != Some("review") ==>
              r == Stopped(RevisionIdentity, read.sent) && Saved(r.sent) == Saved(h))
  {
    hide ReadPair, Confirm, SelectGoverned;
    SavedAfter(h, Request.Read(Default));
  }

  /** The pair before the request may be written from: the default is the latest, and the state asked for is one. */
  ghost predicate MayWrite(input: Input, p: Pair) {
    && p.latestVid == p.liveVid
    && (p.entity.moderated && p.entity.published ==>
          input.moderationState == Some("draft") || input.moderationState == Some("review"))
  }

  /** The inventory is read where there is a revision to draft over and an operation to ask for. */
  ghost function Asked(host: Host, input: Input, p: Pair): History {
    if (HasDraft(p) || IsPublished(p)) && input.canonicalDraftType && host.sentinel && host.rawQuery then
      [ReadInventory]
    else []
  }

  lemma PreparedExactly(host: Host, input: Input, h: History)
    ensures var p := Prepare(host, input, h);
      var read := ReadPair(host, input.id, RevisionIdentity, h);
      && (p.Done? ==> read.Done? && MayWrite(input, read.value) && p.value.0 == read.value)
      && (read.Done? && MayWrite(input, read.value) ==>
            if !HasDraft(read.value) && (!IsPublished(read.value) || NoOperation(host, input, read.sent)) then
              p.Done? && p.value.1 == Patch(input)
            else if NoOperation(host, input, read.sent) then
              p.Stopped? && p.failure == UnsupportedContinuation(read.value.liveVid, read.value.workingVid.value)
            else if SelectGoverned(host, input, read.value, read.sent).Done? then
              p.Done? && p.value.1 == Draft(
                input, read.value.liveVid, if HasDraft(read.value) then read.value.workingVid.value else "",
                host.inventory(read.sent + [ReadInventory]).inventory.langcode)
            else p.Stopped? && p.failure == RevisionIdentity)
      && (p.Stopped? && !(read.Done? && MayWrite(input, read.value)) ==> p.failure == RevisionIdentity)
      && (p.Done? ==> p.sent == read.sent + Asked(host, input, read.value))
  {
    hide ReadPair, NoOperation, Offers, Saved, SelectGoverned;
    var read := ReadPair(host, input.id, RevisionIdentity, h);
    if read.Done? { RouteIsExact(host, input, read.value, read.sent); }
  }

  /** The pair that is read before the saving request, after the first look. */
  ghost function Before(host: Host, input: Input, h: History): Run<Pair> {
    ReadPair(host, input.id, RevisionIdentity, h + [Request.Read(Default)])
  }

  /** No forward draft, and no draft operation is needed or offered. */
  ghost predicate TakesPatch(host: Host, input: Input, before: Run<Pair>) {
    && before.Done? && MayWrite(input, before.value)
    && !HasDraft(before.value)
    && (IsPublished(before.value) ==> NoOperation(host, input, before.sent))
  }

  /** There is a published or forward revision to draft over, and the inventory offers it as it was read. */
  ghost predicate TakesDraft(host: Host, input: Input, before: Run<Pair>) {
    && before.Done? && MayWrite(input, before.value)
    && (HasDraft(before.value) || IsPublished(before.value))
    && input.canonicalDraftType && host.sentinel && host.rawQuery
    && host.inventory(before.sent + [ReadInventory]).Listed?
    && Offers(host.inventory(before.sent + [ReadInventory]).inventory, before.value)
  }

  /** Which saving request goes out, if any, is settled by the first look, the pair and the inventory. */
  lemma SavesExactly(host: Host, number: ToSafeInteger, input: Input, h: History)
    ensures var r := Write(host, number, input, h);
      var look := host.read(h + [Request.Read(Default)]);
      var before := Before(host, input, h);
      if !host.canRead || !look.Found? then r.Stopped? && r.failure == RevisionIdentity && Saved(r.sent) == Saved(h)
      else if !look.entity.moderated || TakesPatch(host, input, before) then
        Saved(r.sent) == Saved(h) + [Patch(input)]
      else if TakesDraft(host, input, before) then
        Saved(r.sent) == Saved(h) + [Draft(
          input, before.value.liveVid, if HasDraft(before.value) then before.value.workingVid.value else "",
          host.inventory(before.sent + [ReadInventory]).inventory.langcode)]
      else
        && r.Stopped? && Saved(r.sent) == Saved(h)
        && r.failure ==
           if before.Done? && MayWrite(input, before.value) && NoOperation(host, input, before.sent)
           then UnsupportedContinuation(before.value.liveVid, before.value.workingVid.value) else RevisionIdentity
  {
    hide ReadPair, Confirm, Prepare, SelectGoverned, NoOperation, Offers;
    var h1 := h + [Request.Read(Default)];
    SavedAfter(h, Request.Read(Default));
    SavedAfter(h1, Patch(input));
    PreparedExactly(host, input, h1);
    var p := Prepare(host, input, h1);
    if p.Done? { SavedAfter(p.sent, p.value.1); }
    var before := Before(host, input, h);
    if before.Done? { RouteIsExact(host, input, before.value, before.sent); }
  }

  // ----- what the answers afterwards must show -----

  /** A refusal that may be taken at its word: a 4xx, but not 408 or 429. */
  ghost predicate Refuses(error: HostError) {
    && error.status.Some? && 400 <= error.status.value <= 499
    && error.status.value != 408 && error.status.value != 429
  }

  /** The two pairs tell the same published revision with the same pins, and the same forward revision if any. */
  ghost predicate StillThere(p: Pair, q: Pair) {
    && q.liveVid == p.liveVid && q.latestVid == p.liveVid
    && PinKey.Key(q.pins) == PinKey.Key(p.pins)
    && (if HasDraft(p) then q.workingVid == p.workingVid else !HasDraft(q))
  }

  /** The two reads that word an uncertain result. */
  ghost function Looks(host: Host): History {
    if host.canRead then [Request.Read(Default), Request.Read(WorkingCopy)] else []
  }

  /** A refused saving request: the host's own error is passed on only if it can be believed. */
  lemma RefusedIsExact(host: Host, number: ToSafeInteger, input: Input, p: Pair, h: History)
    requires h != [] && Saving(h[|h| - 1]) && host.write(h).WriteFailed?
    ensures var r := Confirm(host, number, input, p, h);
      var error := host.write(h).error;
      var again := ReadPair(host, input.id, Uncertain, h);
      && r.Stopped?
      && (if h[|h| - 1].Draft? && error.missingEndpoint then r.failure == MissingEndpoint(error) && r.sent == h
          else if Refuses(error) && again.Done? && StillThere(p, again.value) then
            r.failure == Rejected(error) && r.sent == again.sent
          else
            r.failure == Uncertain && r.sent == (if Refuses(error) then again.sent else h) + Looks(host))
  {
    hide ReadPair, PinKey.Key, Saved;
  }

  /** What the new forward revision must pin: the submitted fields as submitted, or else all that was there. */
  ghost predicate ForwardAsAsked(number: ToSafeInteger, rels: seq<Relationship>, p: Pair, q: Pair) {
    var shown := if q.working.Some? then Normalized(q.working.value.pins) else [];
    var submission := SubmissionOf(rels);
    if submission.Some? then Landed(number, submission.value.pins, InFields(shown, submission.value.fields))
    else if HasDraft(p) then
      Landed(number, if p.working.Some? then Normalized(p.working.value.pins) else [], shown)
    else Landed(number, p.pins, shown)
  }

  /** After a write over a published revision it is as it was, and a new forward revision has been made. */
  ghost predicate NewDraft(p: Pair, q: Pair) {
    && q.liveVid == p.liveVid && q.latestVid == p.liveVid
    && PinKey.Key(q.pins) == PinKey.Key(p.pins)
    && HasDraft(q) && (HasDraft(p) ==> q.workingVid != p.workingVid)
  }

  /** After any other write the submitted fields are in the latest of the revisions. */
  ghost predicate WrittenAsAsked(number: ToSafeInteger, rels: seq<Relationship>, q: Pair) {
    var submission := SubmissionOf(rels);
    submission.Some? ==>
      var shown := if !HasDraft(q) then q.pins else if q.working.Some? then Normalized(q.working.value.pins) else [];
      Landed(number, submission.value.pins, InFields(shown, submission.value.fields))
  }

  /** An accepted saving request is confirmed exactly if the revisions read after it show what was asked. */
  lemma ConfirmedExactly(host: Host, number: ToSafeInteger, input: Input, p: Pair, h: History)
    requires h != [] && Saving(h[|h| - 1]) && host.write(h).Written?
    ensures var r := Confirm(host, number, input, p, h);
      var again := ReadPair(host, input.id, Uncertain, h);
      && (r.Done? <==>
            && host.write(h).id == Some(input.id)
            && again.Done?
            && (IsPublished(p) ==>
                  NewDraft(p, again.value) && ForwardAsAsked(number, input.relationships, p, again.value))
            && (!IsPublished(p) ==> WrittenAsAsked(number, input.relationships, again.value))
            && (h[|h| - 1].Draft? && h[|h| - 1].working != "" ==> again.value.workingVid != p.workingVid))
      && (r.Done? ==>
            r.sent == again.sent
            && r.value == Verified(
                 p, again.value,
                 if HasDraft(again.value) then Some((p.liveVid, again.value.workingVid.value)) else None))
      && (r.Stopped? ==>
            && r.failure == Uncertain
            && r.sent == if host.write(h).id == Some(input.id) then again.sent else h + Looks(host))
  {
    hide ReadPair, PinKey.Key, Landed, Normalized, InFields, SubmissionOf, Saved;
  }

  /** An entity that did not look moderated is patched and the reply returned as it is, or its error thrown. */
  lemma UnmoderatedIsPassedThrough(host: Host, number: ToSafeInteger, input: Input, h: History)
    requires host.canRead && host.read(h + [Request.Read(Default)]).Found?
    requires !host.read(h + [Request.Read(Default)]).entity.moderated
    ensures var sent := h + [Request.Read(Default)] + [Patch(input)];
      Write(host, number, input, h) ==
        if host.write(sent).WriteFailed? then Stopped(HostThrew(host.write(sent).error), sent)
        else Done(PassedThrough(host.write(sent)), sent)
  {
    hide Saved, Prepare, Confirm;
  }

  /** The whole of the guarded route: what is confirmed is the saving request that was called for. */
  lemma GuardedIsConfirmed(host: Host, number: ToSafeInteger, input: Input, h: History, save: Request)
    requires LooksModerated(host, h) && Saving(save)
    requires Saved(Write(host, number, input, h).sent) == Saved(h) + [save]
    ensures var before := Before(host, input, h);
      && before.Done?
      && Write(host, number, input, h)
         == Confirm(host, number, input, before.value, before.sent + Asked(host, input, before.value) + [save])
  {
    hide ReadPair, Confirm, Prepare, SelectGoverned, NoOperation, Offers, Asked;
    var h1 := h + [Request.Read(Default)];
    SavedAfter(h, Request.Read(Default));
    PreparedExactly(host, input, h1);
    var p := Prepare(host, input, h1);
    SavedAfter(p.sent, p.value.1);
    assert (Saved(h) + [save])[|Saved(h)|] == save;
  }
}
