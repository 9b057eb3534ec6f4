/**
 * Resuming: an earlier run made the new parent and did not get it pinned. On a site that serves what that run made, the
 * next run accepts the parent and finishes.
 */
module NestedResume {
  import opened Common
  import opened NestedDraft
  import CanonicalDraft

  /** What the site holds, as a plan; the component and its languages included. */
  function SitePlan(spec: Spec, w: Site): (r: Option<Plan>)
    ensures r.Some? ==> r.value.slot < |r.value.publishedPins|
  {
    var plan, langs := PlanOf(spec, w.inventory, w.published, w.draft), LangsSay(w.langs, w.inventory.langcode);
    if plan.None? || langs.None? then None else Some(plan.value.(parent := w.parent, langs := langs.value))
  }

  // ----- what the site serves -----

  /** Whenever it is asked, the site gives this paragraph. */
  ghost predicate Gives(b: Backend, address: Address, e: Paragraph) { forall t :: b.paragraph(t, address) == Found(e) }

  /** A new child is served at its pin in its own words, and in each other language in those it was given. */
  ghost predicate ChildServed(b: Backend, child: Child, pin: Pin, childPins: seq<Pin>, lang: string) {
    && PinMatches(b.numbers, child, pin, childPins)
    && (child.op != Keep ==>
          && (exists e :: Gives(b, PinAddress(child, pin, ""), e) && IsChild(e, child, pin))
          && forall w <- child.translations :: w.langcode != lang ==> WordingServed(b, child, pin, w))
  }

  function PinAddress(child: Child, pin: Pin, lang: string): Address {
    Address(child.bundle, pin.id, VersionText(pin.revision), lang)
  }

  ghost predicate WordingServed(b: Backend, child: Child, pin: Pin, w: Wording) {
    exists e :: Gives(b, PinAddress(child, pin, w.langcode), e) && e.langcode == w.langcode && e.copied == w.attributes
  }

  predicate IsChild(e: Paragraph, child: Child, pin: Pin) {
    SameId(e.id, pin.id) && e.bundle == child.bundle && e.revision == pin.revision && e.copied == child.attributes
  }

  /** The component and the resumed parent are served in this language, with equal words. */
  ghost predicate LanguageServed(b: Backend, parent: Paragraph, resumed: Paragraph, lang: string) {
    exists source: Paragraph, copy: Paragraph ::
      && Gives(b, SourceAddress(parent, lang), source) && Gives(b, CopyAddress(parent, resumed, lang), copy)
      && source.langcode == copy.langcode == lang && source.copied == copy.copied
  }

  /** The site serves a parent that is the one this request would make. */
  ghost predicate ResumeServed(b: Backend, spec: Spec, plan: Plan, resumed: Paragraph) {
    && plan.slot < |plan.publishedPins| && Gives(b, ResumeAddress(spec, plan), resumed)
    && resumed.revision != "" && SameId(resumed.id, spec.resumeParentId)
    && resumed.copied == plan.parent.copied && resumed.references == plan.parent.references
    && |resumed.pins| == |spec.children|
    && (forall i :: 0 <= i < |spec.children| ==>
          ChildServed(b, spec.children[i], resumed.pins[i], plan.parent.pins, plan.langcode))
    && forall lang <- plan.langs :: LanguageServed(b, plan.parent, resumed, lang)
  }

  // ----- a served parent is not refused -----

  lemma {:induction false} ReadAsGiven(b: Backend, t: Trace, address: Address, read: Read<Paragraph>, e: Paragraph)
    requires Honest(b, t) && Gives(b, address, e) && ParagraphRead(address, read) in t
    ensures read == Found(e)
  {
    var before, last := t[..|t| - 1], t[|t| - 1];
    if last == ParagraphRead(address, read) {
      assert Answers(b, before, last);
    } else {
      ReadAsGiven(b, before, address, read, e);
    }
  }

  lemma ChildIsNotRefused(b: Backend, t: Trace, child: Child, pin: Pin, childPins: seq<Pin>, lang: string)
    requires Honest(b, t) && ChildServed(b, child, pin, childPins, lang)
    ensures !ChildDiffers(b.numbers, t, child, pin, childPins, lang)
  {
    hide Honest, SameId, PinMatches, Gives;
    if child.op != Keep && t != [] && t[|t| - 1].ParagraphRead? {
      var (address, read) := (t[|t| - 1].address, t[|t| - 1].paragraph);
      assert ParagraphRead(address, read) in t;
      if address == PinAddress(child, pin, "") {
        var e :| Gives(b, address, e) && IsChild(e, child, pin);
        ReadAsGiven(b, t, address, read, e);
      }
      forall w <- child.translations
        | w.langcode != lang && address == Address(child.bundle, pin.id, VersionText(pin.revision), w.langcode)
        ensures read.Found? && read.value.langcode == w.langcode && read.value.copied == w.attributes
      {
        assert WordingServed(b, child, pin, w);
        var e :| Gives(b, address, e) && e.langcode == w.langcode && e.copied == w.attributes;
        ReadAsGiven(b, t, address, read, e);
      }
    }
  }

  lemma LanguageIsNotRefused(b: Backend, t: Trace, parent: Paragraph, resumed: Paragraph, lang: string)
    requires Honest(b, t) && LanguageServed(b, parent, resumed, lang)
    ensures !LanguageReadDiffers(t, parent, resumed, lang)
  {
    hide Honest, Gives, SourceAddress, CopyAddress;
    var source: Paragraph, copy: Paragraph :|
      && Gives(b, SourceAddress(parent, lang), source) && Gives(b, CopyAddress(parent, resumed, lang), copy)
      && source.langcode == copy.langcode == lang && source.copied == copy.copied;
    if t != [] && t[|t| - 1].ParagraphRead? {
      var (address, read) := (t[|t| - 1].address, t[|t| - 1].paragraph);
      assert ParagraphRead(address, read) in t;
      if address == SourceAddress(parent, lang) { ReadAsGiven(b, t, address, read, source); }
      if address == CopyAddress(parent, resumed, lang) { ReadAsGiven(b, t, address, read, copy); }
      forall e: Paragraph | ParagraphRead(SourceAddress(parent, lang), Found(e)) in t
        ensures e == source
      {
        ReadAsGiven(b, t, SourceAddress(parent, lang), Found(e), source);
      }
    }
  }

  lemma ServedIsNotRefused(b: Backend, spec: Spec, plan: Plan, t: Trace, resumed: Paragraph)
    requires Honest(b, t) && ResumeServed(b, spec, plan, resumed)
    ensures !ResumeFails(b.numbers, spec, plan, t)
  {
    hide Honest, Gives, SameId, ChildServed, ChildDiffers, LanguageServed, LanguageReadDiffers;
    var address := ResumeAddress(spec, plan);
    if t != [] && t[|t| - 1].ParagraphRead? && t[|t| - 1].address == address {
      assert ParagraphRead(address, t[|t| - 1].paragraph) in t;
      ReadAsGiven(b, t, address, t[|t| - 1].paragraph, resumed);
    }
    forall e: Paragraph | ParagraphRead(address, Found(e)) in t
      ensures !ResumeDiffers(b.numbers, spec, plan, t, e)
    {
      ReadAsGiven(b, t, address, Found(e), resumed);
      forall i | 0 <= i < |spec.children|
        ensures !ChildDiffers(b.numbers, t, spec.children[i], resumed.pins[i], plan.parent.pins, plan.langcode)
      {
        ChildIsNotRefused(b, t, spec.children[i], resumed.pins[i], plan.parent.pins, plan.langcode);
      }
      forall lang <- plan.langs
        ensures !LanguageReadDiffers(t, plan.parent, resumed, lang)
      {
        LanguageIsNotRefused(b, t, plan.parent, resumed, lang);
      }
    }
  }

  // ----- and the run finishes -----

  /** While no draft is sent the working copy, if there is one, shows the draft of the site. */
  ghost predicate WorkingShown(b: Backend, w: Site) {
    var working := WorkingOf(w.inventory);
    working != "" ==>
      forall t | Saved(t).patches == [] :: b.host(t, WorkingCopy) == Found(HostEntity(Some(working), w.draft))
  }

  predicate PlainNumber(n: Numbers, revision: string) {
    revision != "" && n.positive(revision) && n.text(revision) == revision
  }

  /** Once the draft pins the parent, it does so at the parent's revision, and its revisions are written plainly. */
  ghost predicate PinnedPlainly(n: Numbers, plan: Plan, row: Row)
    requires plan.slot < |plan.draftPins|
  {
    AlreadyPinned(plan, row) ==>
      && (forall pin <- plan.draftPins :: PlainNumber(n, pin.revision))
      && plan.draftPins[plan.slot].revision == row.revision
  }

  lemma ResumeIsPlanned(b: Backend, spec: Spec, w: Site)
    requires spec.resumeParentId != "" && SiteHolds(b.numbers, spec, w) && ReadsAreStable(b, spec, w)
    ensures SitePlan(spec, w).Some? && Planned(b, spec).0 == SitePlan(spec, w) && Early(b, spec, false) == None
    ensures var plan := SitePlan(spec, w).value;
      && plan.slot < |plan.draftPins| && plan.draftPins == w.draft && plan.live == w.inventory.live
      && plan.working == WorkingOf(w.inventory)
  {
    HostIsPlanned(b, spec, w);
    PlanIsWhole(b, spec, w, HostPlan(b, spec, []).1);
    hide HostPlan, ParentPlan, ReadsAreStable, InventoryFits, PublishedFits, ParentFits, ChildrenFit, SameId, AllPinned;
  }

  lemma PlanIsWhole(b: Backend, spec: Spec, w: Site, t: Trace)
    requires SiteHolds(b.numbers, spec, w) && ReadsAreStable(b, spec, w)
    ensures ParentPlan(b, spec, PlanOf(spec, w.inventory, w.published, w.draft).value, t).0 == SitePlan(spec, w)
  {
    hide SameId, AllPinned, Reusable, ChildrenFit, Pinned, RequiredLangs, InventoryFits, WorkingOf, ParentFits,
         DraftSlot;
  }

  lemma RowsAreResumed(b: Backend, spec: Spec, plan: Plan, t: Trace, rows: seq<Row>, resumed: Paragraph)
    requires Honest(b, t) && ResumeServed(b, spec, plan, resumed) && Resumed(b.numbers, spec, plan, t, rows)
    ensures rows == [Row(spec.resumeParentId, plan.publishedPins[plan.slot].bundle, true, resumed.revision)]
  {
    hide Honest, Gives, Resumes, ChildServed, LanguageServed;
    var e: Paragraph :|
      && ParagraphRead(ResumeAddress(spec, plan), Found(e)) in t
      && rows == [Row(spec.resumeParentId, plan.publishedPins[plan.slot].bundle, true, e.revision)];
    ReadAsGiven(b, t, ResumeAddress(spec, plan), Found(e), resumed);
  }

  lemma {:induction false} PlainKeys(n: Numbers, pins: seq<Pin>, i: nat)
    requires i < |pins| && PlainNumber(n, pins[i].revision)
    ensures PinKey(PinRef(n, pins[i])) == PinKey(pins[i])
  {}

  lemma SlotKey(n: Numbers, pin: Pin, row: Row)
    requires SameId(pin.id, row.id) && pin.revision == row.revision && PlainNumber(n, row.revision)
    ensures PinKey(Embed(n, row.bundle, row.id, row.revision)) == PinKey(pin)
  {}

  /** A draft that already pins the parent has the pins that are expected of it. */
  lemma PinnedIsExpected(n: Numbers, plan: Plan, row: Row)
    requires plan.slot < |plan.draftPins| && AlreadyPinned(plan, row) && PinnedPlainly(n, plan, row)
    requires row.revision != ""
    ensures Keys(plan.draftPins) == Keys(NextPins(n, plan.draftPins, plan.slot, row))
  {
    var pins, next := plan.draftPins, NextPins(n, plan.draftPins, plan.slot, row);
    assert SameId(pins[plan.slot].id, row.id) && pins[plan.slot].revision == row.revision;
    assert PlainPins(n, pins);
    hide AlreadyPinned, PinnedPlainly, PlainNumber, PinKey, PinRef, Embed;
    forall i | 0 <= i < |pins|
      ensures Keys(pins)[i] == Keys(next)[i]
    {
      assert pins[i] in pins;
      PlainKeys(n, pins, i);
      if i == plan.slot { SlotKey(n, pins[i], row); }
    }
  }

  lemma ResumedFinishes(
    b: Backend, spec: Spec, w: Site, plan: Plan, t: Trace, rows: seq<Row>, resumed: Paragraph)
    requires SiteHolds(b.numbers, spec, w) && ReadsAreStable(b, spec, w)
    requires DraftsSucceed(b, w.inventory.live) && WorkingShown(b, w)
    requires SitePlan(spec, w) == Some(plan) && plan.slot < |plan.draftPins| && plan.draftPins == w.draft
    requires plan.live == w.inventory.live && plan.working == WorkingOf(w.inventory)
    requires rows == [Row(spec.resumeParentId, plan.publishedPins[plan.slot].bundle, true, resumed.revision)]
    requires resumed.revision != "" && Saved(t).patches == [] && PinnedPlainly(b.numbers, plan, rows[0])
    ensures var r := Pinning(b, spec, plan, rows, t).0;
      r.Ok? && r.value.Finished? && r.value.parentId == spec.resumeParentId
  {
    hide SiteHolds, ReadsAreStable, DraftsSucceed, WorkingShown, SitePlan, PinnedPlainly, Saved, ReRead, NextPins, Keys;
    hide ShowsPublished, ShowsDraft;
    var patch := PatchFor(b.numbers, plan, rows);
    if AlreadyPinned(plan, rows[0]) {
      PinnedIsExpected(b.numbers, plan, rows[0]);
      PinnedIsSeen(b, spec, w, plan, patch.pins, t);
    } else {
      hide AlreadyPinned, PinSent, PatchFor;
      DraftIsSent(b, w, plan, t, rows);
      DraftIsSeen(b, spec, w, plan, patch, PinSent(b, plan, rows, t).0);
    }
  }

  lemma PinnedIsSeen(b: Backend, spec: Spec, w: Site, plan: Plan, next: seq<Pin>, t: Trace)
    requires SiteHolds(b.numbers, spec, w) && ReadsAreStable(b, spec, w) && WorkingShown(b, w)
    requires plan.live == w.inventory.live && plan.working == WorkingOf(w.inventory) != ""
    requires Saved(t).patches == [] && Keys(w.draft) == Keys(next)
    ensures ShowsPublished(ReRead(b, t), spec, plan.live)
    ensures var working := ReRead(b, t)[|ReRead(b, t)| - 1].host.value.vid;
      working.Some? && ShowsDraft(ReRead(b, t), plan.live, next, working.value)
  {
    hide Saved, InventoryFits, ChildrenFit, Reusable, AllPinned, Keys, ParentFits;
    var published := b.host(t, Default);
    ReadSavesNothing(t, HostRead(Default, published));
    PublishedPinsParent(b.numbers, spec, w.published);
    assert b.host(t + [HostRead(Default, published)], WorkingCopy) == Found(HostEntity(Some(plan.working), w.draft));
  }

  /** On a site that answers as documented and serves such a parent, resuming it finishes. */
  lemma ServedParentResumes(
    b: Backend, spec: Spec, w: Site, resumed: Paragraph, t: Trace, rows: seq<Row>, r: Result<Outcome, Failure>)
    requires spec.resumeParentId != "" && SiteHolds(b.numbers, spec, w) && ReadsAreStable(b, spec, w)
    requires DraftsSucceed(b, w.inventory.live) && WorkingShown(b, w)
    requires var p := SitePlan(spec, w);
      && p.Some? && ResumeServed(b, spec, p.value, resumed) && p.value.slot < |p.value.draftPins|
      && PinnedPlainly(b.numbers, p.value,
           Row(spec.resumeParentId, p.value.publishedPins[p.value.slot].bundle, true, resumed.revision))
    requires Honest(b, t) && Ends(b, spec, false, t, rows, r)
    ensures r.Ok? && r.value.Finished? && r.value.parentId == spec.resumeParentId
  {
    hide Planned, Early, Honest, SiteHolds, ReadsAreStable, DraftsSucceed, WorkingShown, SitePlan, PinnedPlainly;
    hide Gives, ChildServed, LanguageServed, Pinning, Saved, Resumed, ResumeFails;
    ResumeIsPlanned(b, spec, w);
    var plan := SitePlan(spec, w).value;
    ServedIsNotRefused(b, spec, plan, t, resumed);
    var k: nat :|
      && k <= |t| && Ready(b.numbers, spec, plan, t[..k], rows) && rows != []
      && Saved(t[..k]).patches == [] && (r, t) == Pinning(b, spec, plan, rows, t[..k]);
    HonestPrefix(b, t, k);
    RowsAreResumed(b, spec, plan, t[..k], rows, resumed);
    ResumedFinishes(b, spec, w, plan, t[..k], rows, resumed);
  }

  // ----- what an earlier run made is such a parent -----

  /** The new paragraph has an id that no pin of the component and no child of the request has. */
  ghost predicate IsNew(n: Numbers, children: seq<Child>, childPins: seq<Pin>, row: Row) {
    && row.id != "" && PlainNumber(n, row.revision)
    && !Pinned(childPins, row.id) && forall child <- children :: !SameId(row.id, child.id)
  }

  ghost predicate AllNew(n: Numbers, children: seq<Child>, childPins: seq<Pin>, rows: seq<Row>) {
    forall row <- rows :: IsNew(n, children, childPins, row)
  }

  /** A new child is served as it was created. */
  ghost predicate CreationServed(b: Backend, row: Row, c: Creation) {
    exists e :: Gives(b, Address(c.bundle, row.id, VersionText(row.revision), ""), e)
      && SameId(e.id, row.id) && e.bundle == c.bundle && e.revision == row.revision && e.copied == c.attributes
  }

  /** A translation is served as it was drafted. */
  ghost predicate TranslationServed(b: Backend, t: Translation) {
    exists e :: Gives(b, Address(t.bundle, t.id, VersionText(t.revision), t.langcode), e)
      && e.langcode == t.langcode && e.copied == t.attributes
  }

  ghost predicate CreationsServed(b: Backend, rows: seq<Row>, creations: seq<Creation>) {
    |rows| == |creations| && forall i :: 0 <= i < |rows| ==> CreationServed(b, rows[i], creations[i])
  }

  ghost predicate TranslationsServed(b: Backend, ts: seq<Translation>) { forall t <- ts :: TranslationServed(b, t) }

  ghost predicate PlainPins(n: Numbers, pins: seq<Pin>) { forall pin <- pins :: PlainNumber(n, pin.revision) }

  lemma KeptIsServed(b: Backend, child: Child, childPins: seq<Pin>, lang: string)
    requires child.op == Keep && FirstWith(childPins, child.id) >= 0 && PlainPins(b.numbers, childPins)
    ensures ChildServed(b, child, PinRef(b.numbers, childPins[FirstWith(childPins, child.id)]), childPins, lang)
  {
    hide SameId;
    assert childPins[FirstWith(childPins, child.id)] in childPins;
  }

  lemma {:induction false} WordingIsSent(
    bundle: string, id: string, revision: string, wordings: seq<Wording>, lang: string, w: Wording)
    requires w in wordings && w.langcode != lang
    ensures Translation(bundle, id, revision, w.langcode, w.attributes)
         in Translations(bundle, id, revision, wordings, lang)
  {
    if w != wordings[|wordings| - 1] {
      WordingIsSent(bundle, id, revision, wordings[..|wordings| - 1], lang, w);
    }
  }

  lemma NewChildIsServed(b: Backend, child: Child, row: Row, childPins: seq<Pin>, lang: string)
    requires child.op != Keep && row.id != "" && PlainNumber(b.numbers, row.revision)
    requires !Pinned(childPins, row.id) && !SameId(row.id, child.id)
    requires CreationServed(b, row, Creation(child.bundle, lang, child.attributes, NoReferences))
    requires TranslationsServed(b, Translations(child.bundle, row.id, row.revision, child.translations, lang))
    ensures ChildServed(b, child, Embed(b.numbers, child.bundle, row.id, row.revision), childPins, lang)
  {
    hide SameId, Pinned, Gives, Translations;
    var pin := Embed(b.numbers, child.bundle, row.id, row.revision);
    assert pin == Pin(child.bundle, false, row.id, row.revision);
    var e :| Gives(b, PinAddress(child, pin, ""), e)
      && SameId(e.id, row.id) && e.bundle == child.bundle && e.revision == row.revision && e.copied == child.attributes;
    assert IsChild(e, child, pin);
    forall w <- child.translations | w.langcode != lang
      ensures WordingServed(b, child, pin, w)
    {
      WordingIsSent(child.bundle, row.id, row.revision, child.translations, lang, w);
      assert TranslationServed(b, Translation(child.bundle, row.id, row.revision, w.langcode, w.attributes));
    }
  }

  lemma {:induction false} OnePerChild(children: seq<Child>, lang: string)
    ensures |ChildCreations(children, lang)| == |NewChildren(children)|
  {
    if children != [] { OnePerChild(children[..|children| - 1], lang); }
  }

  lemma LastKept(n: Numbers, front: seq<Child>, last: Child, childPins: seq<Pin>, rows: seq<Row>, lang: string)
    requires last.op == Keep && KeptArePinned(front + [last], childPins) && |rows| == |NewChildren(front + [last])|
    ensures |rows| == |NewChildren(front)| && KeptArePinned(front, childPins)
    ensures ChildCreations(front + [last], lang) == ChildCreations(front, lang)
    ensures ChildTranslations(front + [last], rows, lang) == ChildTranslations(front, rows, lang)
    ensures FirstWith(childPins, last.id) >= 0
    ensures ChildRefs(n, front + [last], childPins, rows)
         == ChildRefs(n, front, childPins, rows) + [PinRef(n, childPins[FirstWith(childPins, last.id)])]
  {
    hide PinRef, FirstWith, Translations;
    assert (front + [last])[..|front|] == front;
  }

  lemma FewerNew(n: Numbers, front: seq<Child>, last: Child, childPins: seq<Pin>, rows: seq<Row>, fewer: seq<Row>)
    requires AllNew(n, front + [last], childPins, rows) && fewer <= rows
    ensures AllNew(n, front, childPins, fewer)
  {
    hide SameId, Pinned, PlainNumber;
    forall row <- fewer
      ensures IsNew(n, front, childPins, row)
    {
      assert row in rows && IsNew(n, front + [last], childPins, row);
      assert forall child <- front :: child in front + [last];
    }
  }

  lemma NewLength(front: seq<Child>, last: Child, lang: string)
    ensures |NewChildren(front + [last])| == |NewChildren(front)| + if last.op == Keep then 0 else 1
    ensures |ChildCreations(front, lang)| == |NewChildren(front)|
  {
    assert (front + [last])[..|front|] == front;
    OnePerChild(front, lang);
  }

  /** Every child of the list that an earlier run gave its parent is served as the request asks for it. */
  lemma {:induction false} ChildrenAreServed(
    b: Backend, children: seq<Child>, childPins: seq<Pin>, rows: seq<Row>, lang: string, i: nat)
    requires i < |children| && KeptArePinned(children, childPins) && |rows| == |NewChildren(children)|
    requires PlainPins(b.numbers, childPins) && AllNew(b.numbers, children, childPins, rows)
    requires CreationsServed(b, rows, ChildCreations(children, lang))
    requires TranslationsServed(b, ChildTranslations(children, rows, lang))
    ensures ChildServed(b, children[i], ChildRefs(b.numbers, children, childPins, rows)[i], childPins, lang)
  {
    hide CreationServed, TranslationServed, PlainPins, PinRef, Embed, Translations, ChildServed, IsNew, FirstWith;
    hide NewChildren, ChildCreations, ChildTranslations, ChildRefs;
    var front, last := children[..|children| - 1], children[|children| - 1];
    assert children == front + [last];
    NewLength(front, last, lang);
    if last.op == Keep {
      LastKept(b.numbers, front, last, childPins, rows, lang);
      FewerNew(b.numbers, front, last, childPins, rows, rows);
      if i < |front| {
        ChildrenAreServed(b, front, childPins, rows, lang, i);
      } else {
        KeptIsServed(b, last, childPins, lang);
      }
    } else {
      var n := |rows| - 1;
      var made, row := rows[..n], rows[n];
      assert rows == made + [row] && KeptArePinned(front, childPins);
      OneMoreSent(front, last, made, row, lang);
      OneMoreRef(b.numbers, front, last, childPins, made, row);
      FewerNew(b.numbers, front, last, childPins, rows, made);
      var own, before := Translations(last.bundle, row.id, row.revision, last.translations, lang),
                         ChildTranslations(front, made, lang);
      assert (forall t <- own :: t in before + own) && forall t <- before :: t in before + own;
      if i < |front| {
        assert CreationsServed(b, made, ChildCreations(front, lang)) by {
          assert forall k :: 0 <= k < n ==> ChildCreations(children, lang)[k] == ChildCreations(front, lang)[k];
        }
        ChildrenAreServed(b, front, childPins, made, lang, i);
      } else {
        assert CreationServed(b, rows[n], ChildCreations(children, lang)[n]);
        NewRowFacts(b.numbers, children, childPins, rows, n, last);
        NewChildIsServed(b, last, row, childPins, lang);
      }
    }
  }

  lemma NewRowFacts(n: Numbers, children: seq<Child>, childPins: seq<Pin>, rows: seq<Row>, i: nat, child: Child)
    requires AllNew(n, children, childPins, rows) && i < |rows| && child in children
    ensures var row := rows[i];
      row.id != "" && PlainNumber(n, row.revision) && !Pinned(childPins, row.id) && !SameId(row.id, child.id)
  {
    hide SameId, Pinned, PlainNumber;
    assert rows[i] in rows && IsNew(n, children, childPins, rows[i]);
  }

  /** The site serves what the ledger of an earlier run says was made: the new children, their languages, the parent. */
  ghost predicate Serves(b: Backend, l: Ledger, rows: seq<Row>, resumed: Paragraph) {
    && rows != [] && |l.creations| == |rows|
    && var n := |rows| - 1;
    && var row, c := rows[n], l.creations[n];
    && CreationsServed(b, rows[..n], l.creations[..n]) && TranslationsServed(b, l.translations)
    && c.references.ParentReferences? && Gives(b, Address(row.bundle, row.id, "", ""), resumed)
    && resumed.id == row.id && resumed.bundle == c.bundle && resumed.revision == row.revision
    && resumed.copied == c.attributes && resumed.references == c.references.copied
    && resumed.pins == c.references.children
  }

  /** What the earlier run read of the component in its other languages is still there, and in those languages. */
  ghost predicate LanguagesStay(b: Backend, plan: Plan, t: Trace) {
    plan.slot < |plan.publishedPins| &&
    var bundle, source := plan.publishedPins[plan.slot].bundle, plan.parent;
    forall lang <- plan.langs, e: Paragraph
      | ParagraphRead(Address(bundle, source.id, ParagraphVersion(source), lang), Found(e)) in t ::
      e.langcode == lang && Gives(b, SourceAddress(source, lang), e)
  }

  lemma CopyIsServed(b: Backend, plan: Plan, t: Trace, row: Row, resumed: Paragraph, lang: string, k: nat)
    requires LanguagesStay(b, plan, t) && lang in plan.langs && Copied(t, plan.parent, row, lang, k)
    requires row.bundle == plan.publishedPins[plan.slot].bundle != ""
    requires TranslationsServed(b, Saved(t).translations)
    requires resumed.id == row.id && resumed.bundle == row.bundle && resumed.revision == row.revision
    ensures LanguageServed(b, plan.parent, resumed, lang)
  {
    hide Gives, Saved, SourceAddress;
    var e: Paragraph :|
      && ParagraphRead(Address(row.bundle, plan.parent.id, ParagraphVersion(plan.parent), lang), Found(e)) in t
      && Saved(t).translations[k] == Translation(row.bundle, row.id, row.revision, lang, e.copied);
    assert TranslationServed(b, Saved(t).translations[k]);
  }

  /** What an earlier run made, and the site serves, is a parent that this request would make. */
  lemma MadeIsServed(b: Backend, spec: Spec, plan: Plan, t: Trace, rows: seq<Row>, resumed: Paragraph)
    requires Built(b.numbers, spec.(resumeParentId := ""), plan, t, rows) && LanguagesStay(b, plan, t)
    requires Serves(b, Saved(t), rows, resumed) && rows[|rows| - 1].id == spec.resumeParentId
    requires AllNew(b.numbers, spec.children, plan.parent.pins, rows) && PlainPins(b.numbers, plan.parent.pins)
    requires plan.publishedPins[plan.slot].bundle != ""
    ensures ResumeServed(b, spec, plan, resumed)
  {
    assert SameId(spec.resumeParentId, spec.resumeParentId);
    hide CreationServed, TranslationsServed, PlainPins, SameId, Copied, Gives, LanguagesStay, ChildServed,
         LanguageServed;
    hide Saved, Ids, ChildRefs, ChildTranslations, IsNew;
    var n, children := |rows| - 1, spec.children;
    var made, lang, parent := rows[..n], plan.langcode, rows[n];
    OnePerChild(children, lang);
    assert Saved(t).creations[..n] == ChildCreations(children, lang);
    assert Saved(t).creations[n] == Creation(parent.bundle, lang, plan.parent.copied, ParentReferences(
             plan.parent.references, ChildRefs(b.numbers, children, plan.parent.pins, made)));
    assert parent in rows && IsNew(b.numbers, children, plan.parent.pins, parent);
    NewHasRevision(b.numbers, children, plan.parent.pins, parent);
    FewerTranslations(b, ChildTranslations(children, made, lang), Saved(t).translations);
    assert AllNew(b.numbers, children, plan.parent.pins, made);
    forall i | 0 <= i < |children|
      ensures ChildServed(b, children[i], resumed.pins[i], plan.parent.pins, lang)
    {
      ChildrenAreServed(b, children, plan.parent.pins, made, lang, i);
    }
    var own := |ChildTranslations(children, made, lang)|;
    forall l <- plan.langs
      ensures LanguageServed(b, plan.parent, resumed, l)
    {
      var i :| 0 <= i < |plan.langs| && plan.langs[i] == l;
      CopyIsServed(b, plan, t, parent, resumed, plan.langs[i], own + i);
    }
  }

  lemma NewHasRevision(n: Numbers, children: seq<Child>, childPins: seq<Pin>, row: Row)
    requires IsNew(n, children, childPins, row)
    ensures row.revision != "" && row.id != ""
  {}

  lemma FewerTranslations(b: Backend, some: seq<Translation>, all: seq<Translation>)
    requires some <= all && TranslationsServed(b, all)
    ensures TranslationsServed(b, some)
  {
    assert forall t <- some :: t in all;
  }

  /**
   * An earlier run made everything asked for and was interrupted. If the site still answers as documented and serves
   * what that run made, the run that resumes its parent finishes.
   */
  lemma InterruptedRunResumes(
    b: Backend, spec: Spec, w: Site, earlier: Trace, made: seq<Row>, resumed: Paragraph,
    t: Trace, rows: seq<Row>, r: Result<Outcome, Failure>)
    requires spec.resumeParentId != "" && SiteHolds(b.numbers, spec, w) && ReadsAreStable(b, spec, w)
    requires DraftsSucceed(b, w.inventory.live) && WorkingShown(b, w)
    requires SitePlan(spec, w).Some? && Interrupted(b, spec, SitePlan(spec, w).value, earlier, made, resumed)
    requires Honest(b, t) && Ends(b, spec, false, t, rows, r)
    ensures r.Ok? && r.value.Finished? && r.value.parentId == spec.resumeParentId
  {
    hide Honest, Ends, SiteHolds, ReadsAreStable, DraftsSucceed, WorkingShown, Built, Serves, LanguagesStay, AllNew;
    hide PlainPins, ResumeServed, PinnedPlainly;
    ResumeIsPlanned(b, spec, w);
    var plan := SitePlan(spec, w).value;
    BundleIsNamed(spec, w);
    MadeIsServed(b, spec, plan, earlier, made, resumed);
    ServedParentResumes(b, spec, w, resumed, t, rows, r);
  }

  lemma BundleIsNamed(spec: Spec, w: Site)
    requires SitePlan(spec, w).Some?
    ensures var plan := SitePlan(spec, w).value; plan.publishedPins[plan.slot].bundle != ""
  {
    hide FirstWith, SameId;
  }

  /** The earlier run built the parent that is to be resumed, of new paragraphs, and the site serves them. */
  ghost predicate Interrupted(
    b: Backend, spec: Spec, plan: Plan, earlier: Trace, made: seq<Row>, resumed: Paragraph)
  {
    && plan.slot < |plan.publishedPins| && plan.slot < |plan.draftPins|
    && Built(b.numbers, spec.(resumeParentId := ""), plan, earlier, made)
    && Serves(b, Saved(earlier), made, resumed) && made[|made| - 1].id == spec.resumeParentId
    && LanguagesStay(b, plan, earlier)
    && AllNew(b.numbers, spec.children, plan.parent.pins, made) && PlainPins(b.numbers, plan.parent.pins)
    && PinnedPlainly(b.numbers, plan,
         Row(spec.resumeParentId, plan.publishedPins[plan.slot].bundle, true, resumed.revision))
  }

  // ----- such sites exist -----

  const OLD_CHILD := Pin("text", false, "child", "3")
  const NEW_CHILD := Pin("text", false, "second", "8")
  const COMPONENT := Paragraph("parent", "text", "en", "5", "copied", "references", [OLD_CHILD])
  const COMPONENT_DE := Paragraph("parent", "text", "de", "5", "kopiert", "references", [OLD_CHILD])
  const NEW_PARENT := Paragraph("new", "text", "en", "7", "copied", "references", [NEW_CHILD])
  const REPLACED := Child(Replace, "child", "text", "words", [Wording("de", "worte")])
  const RESUMING := Spec("host", "parent", "new", "", [REPLACED])

  /** One component with one child, in two languages, and what an earlier run made of it. */
  function TwoLanguageSite(): Site {
    Site(Inventory("1", None, true, false, "en"), PLAIN_PINS, PLAIN_PINS, COMPONENT, Langs(["en", "de"]))
  }

  function TwoLanguageParagraph(address: Address): Paragraph {
    var german := address.langcode == "de";
    if address.id == "parent" then (if german then COMPONENT_DE else COMPONENT)
    else if address.id == "second" then
      Paragraph("second", "text", if german then "de" else "en", "8", if german then "worte" else "words", "", [])
    else if german then Paragraph("new", "text", "de", "7", "kopiert", "", [])
    else NEW_PARENT
  }

  function TwoLanguageBackend(): Backend {
    PlainBackend().(
      inventory := (t: Trace) => Found(TwoLanguageSite().inventory),
      langs := (t: Trace, bundle: string, id: string, revision: string) => Langs(["en", "de"]),
      paragraph := (t: Trace, address: Address) => Found(TwoLanguageParagraph(address)))
  }

  /** The earlier run: the child and its translation, the parent and its translation, and then nothing more. */
  const MADE_CHILD := Create(Creation("text", "en", "words", NoReferences), Created(Made("second", "en", "8")))
  const MADE_PARENT := Create(
    Creation("text", "en", "copied", ParentReferences("references", [NEW_CHILD])), Created(Made("new", "en", "7")))
  const CHILD_DE := Translate(Translation("text", "second", "8", "de", "worte"), true)
  const PARENT_DE := Translate(Translation("text", "new", "7", "de", "kopiert"), true)
  const READ_DE := ParagraphRead(Address("text", "parent", "id:5", "de"), Found(COMPONENT_DE))
  const EARLIER: Trace := [MADE_CHILD, CHILD_DE, MADE_PARENT, READ_DE, PARENT_DE]
  const MADE_ROWS := [Row("second", "text", false, "8"), Row("new", "text", true, "7")]

  /** A paragraph is made, something is read, and what was made is drafted in another language. */
  lemma MadeAndDrafted(b: Backend, t: Trace, c: Exchange, read: seq<Exchange>, w: Exchange)
    requires c.Create? && w.Translate? && MadeId(c.reply) != "" && w.translation.id == MadeId(c.reply)
    requires read == [] || (|read| == 1 && read[0].ParagraphRead?)
    ensures var l := Saved(t);
      Saved(t + [c] + read + [w]) == l.(
        creations := l.creations + [c.creation], reported := l.reported + [MadeId(c.reply)],
        translations := l.translations + [w.translation])
  {
    hide Saved;
    Appended(b, t, c);
    if read == [] {
      assert t + [c] + read == t + [c];
    } else {
      assert read == [read[0]];
      Appended(b, t + [c], read[0]);
    }
    Appended(b, t + [c] + read, w);
  }

  lemma EarlierSaved()
    ensures Saved(EARLIER) == Ledger(
      [MADE_CHILD.creation, MADE_PARENT.creation], ["second", "new"],
      [CHILD_DE.translation, PARENT_DE.translation], [], [])
  {
    assert Saved([]) == NOTHING_SAVED;
    hide PlainBackend, Saved;
    var made: Trace := [MADE_CHILD, CHILD_DE];
    assert [] + [MADE_CHILD] + [] + [CHILD_DE] == made;
    assert made + [MADE_PARENT] + [READ_DE] + [PARENT_DE] == EARLIER;
    MadeAndDrafted(PlainBackend(), [], MADE_CHILD, [], CHILD_DE);
    MadeAndDrafted(PlainBackend(), made, MADE_PARENT, [READ_DE], PARENT_DE);
  }

  const PLAIN_PLAN := Plan("1", "", "en", false, PLAIN_PINS, PLAIN_PINS, 0, COMPONENT, ["de"])

  /** The ids differ in their lengths. */
  lemma IdsDiffer()
    ensures !SameId("new", "parent") && !SameId("new", "child") && !SameId("second", "child")
    ensures SameId("parent", "parent") && SameId("child", "child") && !SameId("parent", "child")
    ensures !Pinned(PLAIN_PINS, "new") && !Pinned([OLD_CHILD], "new") && !Pinned([OLD_CHILD], "second")
    ensures Pinned([OLD_CHILD], "child")
  {
    assert |Lower("new")| == 3 && |Lower("parent")| == 6 && |Lower("child")| == 5 && |Lower("second")| == 6;
    hide Lower;
    assert OLD_CHILD in [OLD_CHILD];
  }

  lemma RequiredIsGerman()
    ensures RequiredLangs(["en", "de"], "en") == ["de"]
  {
    assert ["en", "de"][..1] == ["en"] && ["en"][..0] == [];
    assert RequiredLangs([], "en") == [] && RequiredLangs(["en"], "en") == [];
  }

  lemma TwoLanguagePlan()
    ensures SitePlan(RESUMING, TwoLanguageSite()) == Some(PLAIN_PLAN)
  {
    IdsDiffer();
    RequiredIsGerman();
    hide Lower, RequiredLangs, Pinned;
    assert FirstWith(PLAIN_PINS, "parent") == 0;
  }

  lemma ReplacedFits()
    ensures ChildrenFit(RESUMING.children, COMPONENT.pins, ["de"])
  {
    IdsDiffer();
    hide SameId, Pinned;
    assert Supplies(REPLACED, "de") by { assert Wording("de", "worte") in REPLACED.translations; }
  }

  lemma ComponentFits()
    ensures ParentFits(
      TwoLanguageBackend().numbers, RESUMING, PLAIN_PLAN.(parent := NO_PARAGRAPH, langs := []), COMPONENT)
  {
    IdsDiffer();
    hide SameId, Pinned;
  }

  lemma InventoryIsValid()
    ensures InventoryFits(RESUMING, TwoLanguageSite().inventory) && WorkingOf(TwoLanguageSite().inventory) == ""
  {
    assert CanonicalDraft.ValidVid("1") by {
      assert Decimal([]) == 0 && "1"[..0] == [];
    }
    hide CanonicalDraft.ValidVid, CanonicalDraft.FindRow;
  }

  lemma SlotIsFirst()
    ensures FirstWith(PLAIN_PINS, "parent") == 0
    ensures PublishedFits(TwoLanguageBackend().numbers, RESUMING, PLAIN_PINS)
    ensures DraftFits(TwoLanguageBackend().numbers, PLAIN_PINS, PLAIN_PINS)
  {
    IdsDiffer();
    hide Lower, SameId;
  }

  lemma TwoLanguageSiteHolds()
    ensures SiteHolds(TwoLanguageBackend().numbers, RESUMING, TwoLanguageSite())
  {
    InventoryIsValid();
    SlotIsFirst();
    ComponentFits();
    ReplacedFits();
    RequiredIsGerman();
    TwoLanguagePlan();
    hide RequiredLangs, Pinned, InventoryFits, PublishedFits, DraftFits, ParentFits, ChildrenFit, FirstWith;
    hide TwoLanguageBackend, WorkingOf;
    PlanOfSite();
  }

  lemma PlanOfSite()
    ensures var w := TwoLanguageSite();
      PlanOf(RESUMING, w.inventory, w.published, w.draft) == Some(PLAIN_PLAN.(parent := NO_PARAGRAPH, langs := []))
  {
    InventoryIsValid();
    SlotIsFirst();
    hide FirstWith;
  }

  lemma TwoLanguageAnswers()
    requires SiteHolds(TwoLanguageBackend().numbers, RESUMING, TwoLanguageSite())
    ensures ReadsAreStable(TwoLanguageBackend(), RESUMING, TwoLanguageSite())
    ensures DraftsSucceed(TwoLanguageBackend(), "1") && WorkingShown(TwoLanguageBackend(), TwoLanguageSite())
  {
    TwoLanguagePlan();
    hide Saved, SameId, CanonicalDraft.ValidVid, InventoryFits, ChildrenFit, ParentFits, Reusable, AllPinned;
  }

  lemma OneChildMade(n: Numbers)
    requires n == TwoLanguageBackend().numbers
    ensures KeptArePinned([REPLACED], [OLD_CHILD]) && |NewChildren([REPLACED])| == 1
    ensures ChildCreations([REPLACED], "en") == [MADE_CHILD.creation]
    ensures ChildRefs(n, [REPLACED], [OLD_CHILD], [MADE_ROWS[0]]) == [NEW_CHILD]
  {
    assert [MADE_ROWS[0]][..0] == [] && [REPLACED][..0] == [];
    hide FirstWith;
    assert NewChildren([]) == [] && ChildCreations([], "en") == [];
    assert ChildRefs(n, [], [OLD_CHILD], []) == [];
  }

  lemma OneChildTranslated()
    requires |NewChildren([REPLACED])| == 1
    ensures ChildTranslations([REPLACED], [MADE_ROWS[0]], "en") == [CHILD_DE.translation]
  {
    assert [MADE_ROWS[0]][..0] == [] && [REPLACED][..0] == [] && [Wording("de", "worte")][..0] == [];
    assert Translations("text", "second", "8", [], "en") == [];
    assert Translations("text", "second", "8", [Wording("de", "worte")], "en") == [CHILD_DE.translation];
    assert ChildTranslations([], [], "en") == [];
  }

  lemma TwoIds()
    ensures Ids(MADE_ROWS) == ["second", "new"]
  {
    assert MADE_ROWS[..1] == [MADE_ROWS[0]] && MADE_ROWS[..1][..0] == [];
    assert Ids([]) == [] && Ids(MADE_ROWS[..1]) == ["second"];
  }

  const ASSEMBLED := Ledger(
    [MADE_CHILD.creation, MADE_PARENT.creation], ["second", "new"], [CHILD_DE.translation], [], [])

  lemma EarlierIsAssembled(n: Numbers)
    requires n == TwoLanguageBackend().numbers
    ensures Assembled(n, RESUMING.(resumeParentId := ""), PLAIN_PLAN, ASSEMBLED, MADE_ROWS)
  {
    OneChildMade(n);
    OneChildTranslated();
    assert MADE_ROWS[..1] == [MADE_ROWS[0]];
    hide KeptArePinned, NewChildren, ChildCreations, ChildRefs, ChildTranslations, TwoLanguageBackend;
  }

  lemma EarlierIsBuilt()
    ensures Built(TwoLanguageBackend().numbers, RESUMING.(resumeParentId := ""), PLAIN_PLAN, EARLIER, MADE_ROWS)
  {
    EarlierSaved();
    EarlierIsAssembled(TwoLanguageBackend().numbers);
    TwoIds();
    hide Saved, Ids, TwoLanguageBackend, Assembled, Built;
    assert "id:" + "5" == "id:5" && READ_DE in EARLIER;
    assert PARENT_DE.translation in Saved(EARLIER).translations;
    NowCopied(EARLIER, COMPONENT, MADE_ROWS[1], "de", 1, COMPONENT_DE);
    hide Copied;
    AssembledIsBuilt(
      TwoLanguageBackend().numbers, RESUMING.(resumeParentId := ""), PLAIN_PLAN, ASSEMBLED, MADE_ROWS, EARLIER);
  }

  lemma GivesIt(address: Address)
    ensures Gives(TwoLanguageBackend(), address, TwoLanguageParagraph(address))
  {}

  lemma MadeChildIsServed()
    ensures CreationServed(TwoLanguageBackend(), MADE_ROWS[0], MADE_CHILD.creation)
    ensures TranslationServed(TwoLanguageBackend(), CHILD_DE.translation)
    ensures TranslationServed(TwoLanguageBackend(), PARENT_DE.translation)
  {
    GivesIt(Address("text", "second", VersionText("8"), ""));
    GivesIt(Address("text", "second", VersionText("8"), "de"));
    GivesIt(Address("text", "new", VersionText("7"), "de"));
    hide Gives, TwoLanguageBackend, VersionText;
  }

  lemma EarlierIsServed()
    ensures Serves(TwoLanguageBackend(), Saved(EARLIER), MADE_ROWS, NEW_PARENT)
  {
    EarlierSaved();
    MadeChildIsServed();
    GivesIt(Address("text", "new", "", ""));
    hide Gives, Saved, TwoLanguageBackend, CreationServed, TranslationServed;
    assert Saved(EARLIER).creations[..1] == [MADE_CHILD.creation] && MADE_ROWS[..1] == [MADE_ROWS[0]];
  }

  lemma GermanStays()
    ensures LanguagesStay(TwoLanguageBackend(), PLAIN_PLAN, EARLIER)
  {
    assert Gives(TwoLanguageBackend(), SourceAddress(COMPONENT, "de"), COMPONENT_DE);
    hide Gives;
  }

  lemma EarlierIsNew()
    ensures AllNew(TwoLanguageBackend().numbers, RESUMING.children, COMPONENT.pins, MADE_ROWS)
    ensures PlainPins(TwoLanguageBackend().numbers, COMPONENT.pins)
  {
    IdsDiffer();
    hide SameId, Pinned;
  }

  /**
   * There are sites and earlier runs as `InterruptedRunResumes` takes them to be, with a new child and two languages.
   */
  lemma InterruptedRunsExist()
    ensures var b, w := TwoLanguageBackend(), TwoLanguageSite();
      && SiteHolds(b.numbers, RESUMING, w) && ReadsAreStable(b, RESUMING, w)
      && DraftsSucceed(b, w.inventory.live) && WorkingShown(b, w) && SitePlan(RESUMING, w) == Some(PLAIN_PLAN)
      && Interrupted(b, RESUMING, PLAIN_PLAN, EARLIER, MADE_ROWS, NEW_PARENT)
  {
    TwoLanguagePlan();
    TwoLanguageSiteHolds();
    TwoLanguageAnswers();
    EarlierIsBuilt();
    EarlierIsServed();
    GermanStays();
    EarlierIsNew();
    hide SiteHolds, ReadsAreStable, DraftsSucceed, WorkingShown, Built, Serves, LanguagesStay, AllNew, PlainPins, Saved;
    hide TwoLanguageBackend, SitePlan;
  }
}
