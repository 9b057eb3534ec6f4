/**
 * The nested draft told by its requests: which revisions are read, what is asked of the answers before anything is
 * saved, what each saving request holds, and what the answers after it must show. Addresses are written out here.
 */
module NestedLaws {
  import opened Common
  import CanonicalDraft
  import opened NestedDraft

  // ----- ids and references -----

  ghost predicate SameLetter(c: char, d: char) {
    || c == d
    || ('A' <= c <= 'Z' && d as int == c as int + 32)
    || ('A' <= d <= 'Z' && c as int == d as int + 32)
  }

  lemma {:induction false} LowerAt(s: string, i: nat)
    requires i < |s|
    ensures Lower(s)[i] == if 'A' <= s[i] <= 'Z' then (s[i] as int + 32) as char else s[i]
  {
    if i > 0 { LowerAt(s[1..], i - 1); }
  }

  /** Two ids are the same when they differ at most in the case of their letters. */
  lemma IdsIgnoreCase(a: string, b: string)
    ensures SameId(a, b) <==> |a| == |b| && forall i :: 0 <= i < |a| ==> SameLetter(a[i], b[i])
  {
    forall i | 0 <= i < |a| ensures Lower(a)[i] == if 'A' <= a[i] <= 'Z' then (a[i] as int + 32) as char else a[i] {
      LowerAt(a, i);
    }
    forall i | 0 <= i < |b| ensures Lower(b)[i] == if 'A' <= b[i] <= 'Z' then (b[i] as int + 32) as char else b[i] {
      LowerAt(b, i);
    }
    hide Lower;
    if SameId(a, b) {
      assert |a| == |b|;
      forall i | 0 <= i < |a| ensures SameLetter(a[i], b[i]) {
        assert Lower(a)[i] == Lower(b)[i];
      }
    }
    if |a| == |b| && forall i :: 0 <= i < |a| ==> SameLetter(a[i], b[i]) {
      forall i | 0 <= i < |a| ensures Lower(a)[i] == Lower(b)[i] {}
      assert Lower(a) == Lower(b);
    }
  }

  /** A paragraph as it is referred to: its type, its id, and the number that its revision reads as. */
  ghost function Reference(n: Numbers, bundle: string, id: string, revision: string): Pin {
    Pin(bundle, false, id, if revision == "" then "" else n.text(revision))
  }

  ghost predicate IsListed(pins: seq<Pin>, id: string) { exists pin <- pins :: pin.id != "" && SameId(pin.id, id) }

  // ----- the checks before anything is saved -----

  ghost predicate HasForward(i: Inventory) { i.working.Some? && i.working.value.vid != i.live }

  ghost predicate IsUsable(spec: Spec, i: Inventory) {
    && CanonicalDraft.ValidVid(i.live) && (i.working.Some? ==> CanonicalDraft.ValidVid(i.working.value.vid))
    && i.langcode != ""
    && (spec.liveRevisionId != "" ==> spec.liveRevisionId == i.live)
    && (!HasForward(i) ==> i.opensDrafts)
    && (HasForward(i) ==>
          var row := CanonicalDraft.FindRow(i.working.value.translations, i.langcode);
          row.Some? && !row.value.published && row.value.state != "published")
  }

  /** Every pin names a revision. */
  ghost predicate NameRevisions(n: Numbers, pins: seq<Pin>) { forall pin <- pins :: n.positive(pin.revision) }

  /** The published host pins the component directly, and it is not one that others share. */
  ghost predicate PinsComponent(n: Numbers, spec: Spec, pins: seq<Pin>) {
    && NameRevisions(n, pins)
    && var slot := FirstWith(pins, spec.parentId);
    && slot >= 0 && !pins[slot].library && pins[slot].bundle != "from_library" && pins[slot].bundle != ""
  }

  /** The draft has the component in the same place, or there the parent that is to be resumed. */
  ghost predicate KeepsSlot(n: Numbers, spec: Spec, pins: seq<Pin>, draft: seq<Pin>) {
    && NameRevisions(n, draft) && |draft| == |pins|
    && (if FirstWith(draft, spec.parentId) >= 0
        then FirstWith(draft, spec.parentId) == FirstWith(pins, spec.parentId)
        else spec.resumeParentId != "" && FirstWith(draft, spec.resumeParentId) == FirstWith(pins, spec.parentId))
  }

  lemma UsableExactly(spec: Spec, i: Inventory)
    ensures InventoryFits(spec, i) <==> IsUsable(spec, i)
    ensures WorkingOf(i) == if HasForward(i) then i.working.value.vid else ""
    ensures InventoryFits(spec, i) ==> (WorkingOf(i) == "" <==> !HasForward(i))
  {
    hide CanonicalDraft.FindRow;
  }

  lemma PlanOfIsExact(n: Numbers, spec: Spec, i: Inventory, pins: seq<Pin>, draft: seq<Pin>)
    ensures var r := PlanOf(spec, i, pins, draft);
      && (PublishedFits(n, spec, pins) && DraftFits(n, pins, draft) && r.Some? <==>
            PinsComponent(n, spec, pins) && KeepsSlot(n, spec, pins, draft))
      && (r.Some? ==>
            r.value == Plan(i.live, if HasForward(i) then i.working.value.vid else "", i.langcode, i.replacesNested,
                            pins, draft, FirstWith(pins, spec.parentId), NO_PARAGRAPH, []))
  {
    hide SameId;
  }

  lemma SameFits(n: Numbers, spec: Spec, pins: seq<Pin>)
    requires PublishedFits(n, spec, pins)
    ensures DraftFits(n, pins, pins)
  {}

  /** What is asked of the host's revisions; the working copy is asked for only if there is one, and by its id. */
  lemma HostPlanIsExact(b: Backend, spec: Spec, t: Trace)
    ensures var (r, t') := HostPlan(b, spec, t);
      var listed := b.inventory(t);
      var t1 := t + [InventoryRead(listed)];
      var published := b.host(t1, Default);
      var t2 := t1 + [HostRead(Default, published)];
      if !listed.Found? || !IsUsable(spec, listed.value) then r.None? && t' == t1
      else if !published.Found? || published.value.vid != Some(listed.value.live) then r.None? && t' == t2
      else if !HasForward(listed.value) then
        && (r.Some? <==>
              PinsComponent(b.numbers, spec, published.value.pins)
              && KeepsSlot(b.numbers, spec, published.value.pins, published.value.pins))
        && t' == t2
        && (r.Some? ==>
              r.value == Plan(
                listed.value.live, "", listed.value.langcode, listed.value.replacesNested, published.value.pins,
                published.value.pins, FirstWith(published.value.pins, spec.parentId), NO_PARAGRAPH, []))
      else
        var vid := listed.value.working.value.vid;
        var draft := b.host(t2, ById(vid));
        && (r.Some? <==>
              PinsComponent(b.numbers, spec, published.value.pins)
              && draft.Found? && draft.value.vid == Some(vid)
              && KeepsSlot(b.numbers, spec, published.value.pins, draft.value.pins))
        && (t' == t2 || t' == t2 + [HostRead(ById(vid), draft)])
        && (r.Some? ==>
              t' == t2 + [HostRead(ById(vid), draft)]
              && r.value == Plan(
                listed.value.live, vid, listed.value.langcode, listed.value.replacesNested, published.value.pins,
                draft.value.pins, FirstWith(published.value.pins, spec.parentId), NO_PARAGRAPH, []))
  {
    hide InventoryFits, IsUsable, WorkingOf, HasForward, PublishedFits, DraftFits, PlanOf, PinsComponent, KeepsSlot,
         FirstWith;
    var listed := b.inventory(t);
    if listed.Found? {
      UsableExactly(spec, listed.value);
      var t1 := t + [InventoryRead(listed)];
      var published := b.host(t1, Default);
      if published.Found? {
        var pins, t2 := published.value.pins, t1 + [HostRead(Default, published)];
        PlanOfIsExact(b.numbers, spec, listed.value, pins, pins);
        if PublishedFits(b.numbers, spec, pins) { SameFits(b.numbers, spec, pins); }
        if HasForward(listed.value) {
          var draft := b.host(t2, ById(WorkingOf(listed.value)));
          if draft.Found? { PlanOfIsExact(b.numbers, spec, listed.value, pins, draft.value.pins); }
        }
      }
    }
  }

  /** The children asked for are the component's own or new, each kept or replaced once, in all its languages. */
  ghost predicate ChildrenAreRight(children: seq<Child>, pins: seq<Pin>, langs: seq<string>) {
    && (forall child <- children :: child.op == Keep || child.op == Replace ==> IsListed(pins, child.id))
    && (forall child <- children, lang <- langs ::
          child.op == Replace || child.op == Insert ==> exists w <- child.translations :: w.langcode == lang)
    && (forall i, j :: 0 <= i < j < |children| && !children[i].op.Insert? && !children[j].op.Insert? ==>
          !SameId(children[i].id, children[j].id))
  }

  lemma ChildrenFitExactly(children: seq<Child>, pins: seq<Pin>, langs: seq<string>)
    ensures ChildrenFit(children, pins, langs) <==> ChildrenAreRight(children, pins, langs)
  {
    hide SameId;
    if ChildrenAreRight(children, pins, langs) {
      forall child <- children ensures ChildFits(child, pins, langs) {
        assert child.op == Keep || child.op == Replace || child.op == Insert;
      }
    }
    if ChildrenFit(children, pins, langs) {
      forall child <- children ensures child.op == Keep || child.op == Replace ==> IsListed(pins, child.id) {
        assert ChildFits(child, pins, langs);
      }
      forall child <- children, lang <- langs | child.op == Replace || child.op == Insert
        ensures exists w <- child.translations :: w.langcode == lang
      {
        assert ChildFits(child, pins, langs) && Supplies(child, lang);
      }
    }
  }

  /** The component as the published host pins it: at that revision, in its default language. */
  ghost function PinnedComponent(spec: Spec, pin: Pin): Address {
    Address(pin.bundle, spec.parentId, if pin.revision == "" then "" else "id:" + pin.revision, "")
  }

  ghost predicate ComponentIsRight(n: Numbers, spec: Spec, host: Plan, parent: Paragraph) {
    && SameId(parent.id, spec.parentId)
    && (forall pin <- parent.pins :: !pin.library && pin.bundle != "from_library")
    && NameRevisions(n, parent.pins)
    && (spec.resumeParentId != "" ==>
          !IsListed(host.publishedPins, spec.resumeParentId) && !IsListed(parent.pins, spec.resumeParentId))
  }

  /** What is asked of the component; its languages are those of the revision that is pinned. */
  lemma ParentPlanIsExact(b: Backend, spec: Spec, host: Plan, t: Trace)
    requires host.slot < |host.publishedPins|
    ensures var (r, t') := ParentPlan(b, spec, host, t);
      var pin := host.publishedPins[host.slot];
      var read := b.paragraph(t, PinnedComponent(spec, pin));
      var t1 := t + [ParagraphRead(PinnedComponent(spec, pin), read)];
      var reply := b.langs(t1, pin.bundle, spec.parentId, pin.revision);
      var langs := if reply.Langs? then RequiredLangs(reply.rows, host.langcode) else [];
      if !read.Found? || !ComponentIsRight(b.numbers, spec, host, read.value) then r.None? && t' == t1
      else
        && t' == t1 + [LangsRead(pin.bundle, spec.parentId, pin.revision, reply)]
        && (r.Some? <==> !reply.LangsFailed? && ChildrenAreRight(spec.children, read.value.pins, langs))
        && (r.Some? ==> r.value == host.(parent := read.value, langs := langs))
  {
    var pin := host.publishedPins[host.slot];
    var address := PinnedComponent(spec, pin);
    assert ParentAddress(spec, host) == address;
    var read := b.paragraph(t, address);
    var t1 := t + [ParagraphRead(address, read)];
    var reply := b.langs(t1, pin.bundle, spec.parentId, pin.revision);
    if read.Found? {
      ChildrenFitExactly(spec.children, read.value.pins,
                         if reply.Langs? then RequiredLangs(reply.rows, host.langcode) else []);
    }
    hide SameId, RequiredLangs, ChildrenFit, ChildrenAreRight, PinnedComponent, ParentAddress;
  }

  /**
   * Every plan rests on the component as it is published: read at the revision that the published host pins, and
   * that paragraph is the one planned with.
   */
  lemma ComponentIsReadAsPinned(b: Backend, spec: Spec)
    requires Planned(b, spec).0.Some?
    ensures var (p, t) := Planned(b, spec);
      var pin := p.value.publishedPins[p.value.slot];
      && HostRead(Default, Found(HostEntity(Some(p.value.live), p.value.publishedPins))) in t
      && SameId(pin.id, spec.parentId) && b.numbers.positive(pin.revision)
      && (pin.revision != "" ==>
            ParagraphRead(Address(pin.bundle, spec.parentId, "id:" + pin.revision, ""), Found(p.value.parent)) in t)
      && (pin.revision == "" ==>
            ParagraphRead(Address(pin.bundle, spec.parentId, "", ""), Found(p.value.parent)) in t)
  {
    hide HostPlan, ParentPlan, PinsAgree, SameId, FirstWith;
    var (host, t) := HostPlan(b, spec, []);
    HostPlanIsWitnessed(b, spec, []);
    PinnedAt(b.numbers, spec, host.value, t);
    ReadAt(b, spec, host.value, t);
  }

  lemma ReadAt(b: Backend, spec: Spec, host: Plan, t: Trace)
    requires host.slot < |host.publishedPins| && ParentPlan(b, spec, host, t).0.Some?
    ensures var (p, t') := ParentPlan(b, spec, host, t);
      && p.value == host.(parent := p.value.parent, langs := p.value.langs) && t <= t'
      && ParagraphRead(PinnedComponent(spec, host.publishedPins[host.slot]), Found(p.value.parent)) in t'
  {
    ParentPlanIsExact(b, spec, host, t);
    hide ParentPlan, PinnedComponent, ComponentIsRight, ChildrenAreRight, RequiredLangs;
  }

  lemma PinnedAt(n: Numbers, spec: Spec, plan: Plan, t: Trace)
    requires PinsAgree(n, spec, plan) && HostWitnessed(spec, plan, t)
    ensures var pin := plan.publishedPins[plan.slot]; SameId(pin.id, spec.parentId) && n.positive(pin.revision)
    ensures HostRead(Default, Found(HostEntity(Some(plan.live), plan.publishedPins))) in t
  {
    hide SameId, Reusable;
  }

  lemma RunsReadThePinned(b: Backend, spec: Spec, dryRun: bool, t: Trace, rows: seq<Row>, r: Result<Outcome, Failure>)
    requires Ends(b, spec, dryRun, t, rows, r) && Planned(b, spec).0.Some?
    ensures var plan := Planned(b, spec).0.value;
      var pin := plan.publishedPins[plan.slot];
      ParagraphRead(
        Address(pin.bundle, spec.parentId, if pin.revision == "" then "" else "id:" + pin.revision, ""),
        Found(plan.parent)) in t
  {
    ComponentIsReadAsPinned(b, spec);
    hide Planned, Carried, PermitsAll, SameId;
    assert Planned(b, spec).1 <= t;
  }

  // ----- the exits before anything is prepared -----

  /** A type is refused, the server does the work, or nothing was to be done: in that order. */
  lemma EarlyIsExact(b: Backend, spec: Spec, dryRun: bool)
    ensures var (p, t) := Planned(b, spec);
      Early(b, spec, dryRun) ==
        if p.None? then Some((Err(Refused), t))
        else if spec.resumeParentId == ""
                && (|| !b.mayCreate(t, p.value.publishedPins[p.value.slot].bundle)
                    || exists child <- spec.children ::
                         (child.op == Replace || child.op == Insert) && !b.mayCreate(t, child.bundle))
        then Some((Err(Refused), t))
        else if spec.resumeParentId == "" && p.value.onServer then Some((Ok(OnServer), t))
        else if dryRun then Some((Ok(DryRun), t))
        else None
  {
    hide Planned;
    var (p, t) := Planned(b, spec);
    if p.Some? { PermitsExactly(b, spec, p.value.publishedPins[p.value.slot].bundle, t); }
    hide PermitsAll;
  }

  lemma PermitsExactly(b: Backend, spec: Spec, bundle: string, t: Trace)
    ensures !PermitsAll(b, spec, bundle, t) <==>
              (|| !b.mayCreate(t, bundle)
               || exists child <- spec.children ::
                    (child.op == Replace || child.op == Insert) && !b.mayCreate(t, child.bundle))
  {
    forall child <- spec.children ensures child.op != Keep <==> child.op == Replace || child.op == Insert {}
  }

  // ----- the languages -----

  /** Each listed language but the default one is required once, in the order in which they are first listed. */
  lemma {:induction false} LangsAreListedOnce(rows: seq<string>, lang: string, k: nat)
    requires k <= |rows|
    ensures RequiredLangs(rows[..k], lang) <= RequiredLangs(rows, lang)
    ensures forall i, j :: 0 <= i < j < |RequiredLangs(rows, lang)| ==>
              RequiredLangs(rows, lang)[i] != RequiredLangs(rows, lang)[j]
  {
    if k < |rows| {
      var front := rows[..|rows| - 1];
      LangsAreListedOnce(front, lang, k);
      assert front[..k] == rows[..k];
    } else {
      assert rows[..k] == rows;
      if rows != [] { LangsAreListedOnce(rows[..|rows| - 1], lang, 0); }
    }
  }

  // ----- answers -----

  /** The exchange holds what the backend answers to that request after what went before. */
  ghost predicate IsAnsweredBy(b: Backend, t: Trace, e: Exchange) {
    && (e.InventoryRead? ==> b.inventory(t) == e.inventory)
    && (e.LangsRead? ==> b.langs(t, e.bundle, e.id, e.revision) == e.langs)
    && (e.HostRead? ==> b.host(t, e.version) == e.host)
    && (e.ParagraphRead? ==> b.paragraph(t, e.address) == e.paragraph)
    && (e.Create? ==> b.create(t, e.creation) == e.reply)
    && (e.Translate? ==> b.translate(t, e.translation) == e.ok)
    && (e.Preflight? ==> b.preflight(t, e.patch) == e.checked)
    && (e.HostDraft? ==> b.draft(t, e.patch) == e.drafted)
  }

  lemma {:induction false} HonestExactly(b: Backend, t: Trace)
    ensures Honest(b, t) <==> forall k: nat :: k < |t| ==> IsAnsweredBy(b, t[..k], t[k])
  {
    if t != [] {
      var front, last := t[..|t| - 1], t[|t| - 1];
      HonestExactly(b, front);
      assert Answers(b, front, last) <==> IsAnsweredBy(b, front, last);
      hide Answers, IsAnsweredBy;
      assert forall k: nat :: k < |front| ==> front[..k] == t[..k];
      if Honest(b, t) {
        forall k: nat | k < |t| ensures IsAnsweredBy(b, t[..k], t[k]) {
          if k < |front| { assert IsAnsweredBy(b, front[..k], front[k]); }
        }
      }
      if forall k: nat :: k < |t| ==> IsAnsweredBy(b, t[..k], t[k]) {
        forall k: nat | k < |front| ensures IsAnsweredBy(b, front[..k], front[k]) {
          assert IsAnsweredBy(b, t[..k], t[k]);
        }
      }
    }
  }

  // ----- what is saved -----

  /** What each exchange adds to what was saved: the rest of it stays. */
  lemma SavedGrowsBy(t: Trace, e: Exchange)
    ensures var l, l' := Saved(t), Saved(t + [e]);
      && l'.creations == l.creations + (if e.Create? then [e.creation] else [])
      && l'.patches == l.patches + (if e.HostDraft? then [e.patch] else [])
      && l'.translations == l.translations + (if e.Translate? then [e.translation] else [])
      && (e.Create? && e.reply.Created? ==>
            l'.reported == if e.reply.made.id == "" then l.reported else l.reported + [e.reply.made.id])
      && (e.Create? && e.reply.CreateFailed? ==>
            l'.reported == if e.reply.orphan.id == "" then l.reported else l.reported + [e.reply.orphan.id])
      && (!e.Create? ==> l'.reported == l.reported)
      && l'.foreign == l.foreign
         + (if e.Translate? && e.translation.id != "" && e.translation.id !in l.reported then [e.translation] else [])
  {
    assert (t + [e])[..|t|] == t;
  }

  /** How many new paragraphs there are before the child at `i`. */
  ghost function NewBefore(children: seq<Child>, i: nat): nat
    requires i <= |children|
  {
    |NewChildren(children[..i])|
  }

  lemma {:induction false} NewBeforeCounts(children: seq<Child>, i: nat)
    requires i < |children|
    ensures NewBefore(children, 0) == 0
    ensures NewBefore(children, i + 1) == NewBefore(children, i) + if children[i].op == Keep then 0 else 1
  {
    assert children[..i + 1][..i] == children[..i];
    assert children[..i + 1][i] == children[i];
  }

  /** A kept child stays as it is pinned; any other is the new paragraph that was made for it. */
  lemma {:induction false} ChildIsReferredTo(
      n: Numbers, children: seq<Child>, pins: seq<Pin>, rows: seq<Row>, i: nat)
    requires |rows| == |NewChildren(children)| && i < |children|
    requires forall child <- children :: child.op == Keep ==> FirstWith(pins, child.id) >= 0
    ensures NewBefore(children, i) <= |rows|
    ensures children[i].op == Keep ==>
              var pin := pins[FirstWith(pins, children[i].id)];
              ChildRefs(n, children, pins, rows)[i] == Reference(n, pin.bundle, pin.id, pin.revision)
    ensures children[i].op != Keep ==>
              && NewBefore(children, i) < |rows|
              && var row := rows[NewBefore(children, i)];
                 ChildRefs(n, children, pins, rows)[i] == Reference(n, children[i].bundle, row.id, row.revision)
  {
    hide FirstWith;
    var front, last := children[..|children| - 1], children[|children| - 1];
    assert forall child <- front :: child in children;
    assert front[..i] == children[..i];
    if i < |front| {
      ChildIsReferredTo(n, front, pins, if last.op == Keep then rows else rows[..|rows| - 1], i);
    }
  }

  /** One creation for each new child, in the default language and without references of its own. */
  lemma {:induction false} ChildIsCreated(children: seq<Child>, lang: string, i: nat)
    requires i < |children|
    ensures |ChildCreations(children, lang)| == |NewChildren(children)|
    ensures NewBefore(children, i) <= |ChildCreations(children, lang)|
    ensures children[i].op != Keep ==>
              && NewBefore(children, i) < |ChildCreations(children, lang)|
              && ChildCreations(children, lang)[NewBefore(children, i)]
                 == Creation(children[i].bundle, lang, children[i].attributes, NoReferences)
  {
    var front := children[..|children| - 1];
    assert front[..i] == children[..i];
    if front != [] {
      ChildIsCreated(front, lang, if i < |front| then i else 0);
    } else {
      assert NewChildren([]) == [] && ChildCreations([], lang) == [];
    }
  }

  /** The wordings of one paragraph but that of the default language, each for the new paragraph and revision. */
  lemma {:induction false} WordingsAreDrafted(
      bundle: string, id: string, revision: string, wordings: seq<Wording>, lang: string, i: nat)
    requires i < |wordings|
    ensures var all, before :=
        Translations(bundle, id, revision, wordings, lang), Translations(bundle, id, revision, wordings[..i], lang);
      if wordings[i].langcode == lang then
        Translations(bundle, id, revision, wordings[..i + 1], lang) == before <= all
      else
        before + [Translation(bundle, id, revision, wordings[i].langcode, wordings[i].attributes)] <= all
  {
    var front := wordings[..|wordings| - 1];
    assert wordings[..i + 1][..i] == wordings[..i];
    assert front[..i] == wordings[..i];
    if i < |front| { WordingsAreDrafted(bundle, id, revision, front, lang, i); }
    if i + 1 == |wordings| { assert wordings[..i + 1] == wordings; }
  }

  /** Nothing but these is drafted. */
  lemma {:induction false} OnlyWordingsAreDrafted(
      bundle: string, id: string, revision: string, wordings: seq<Wording>, lang: string, x: Translation)
    ensures x in Translations(bundle, id, revision, wordings, lang) <==>
              exists w <- wordings ::
                w.langcode != lang && x == Translation(bundle, id, revision, w.langcode, w.attributes)
  {
    if wordings != [] {
      OnlyWordingsAreDrafted(bundle, id, revision, wordings[..|wordings| - 1], lang, x);
      assert wordings == wordings[..|wordings| - 1] + [wordings[|wordings| - 1]];
    }
  }

  /** The new children are translated in their order, each by its own row. */
  lemma {:induction false} ChildrenAreTranslatedInTurn(children: seq<Child>, rows: seq<Row>, lang: string, i: nat)
    requires |rows| == |NewChildren(children)| && i < |children|
    ensures NewBefore(children, i) <= |rows| && NewBefore(children, i + 1) <= |rows|
    ensures children[i].op == Keep ==>
              ChildTranslations(children[..i + 1], rows[..NewBefore(children, i + 1)], lang)
              == ChildTranslations(children[..i], rows[..NewBefore(children, i)], lang)
    ensures children[i].op != Keep ==>
              && NewBefore(children, i) < |rows|
              && var row := rows[NewBefore(children, i)];
                 ChildTranslations(children[..i + 1], rows[..NewBefore(children, i + 1)], lang)
                 == ChildTranslations(children[..i], rows[..NewBefore(children, i)], lang)
                    + Translations(children[i].bundle, row.id, row.revision, children[i].translations, lang)
  {
    hide Translations;
    NewBeforeCounts(children, i);
    NewBeforeGrows(children, i + 1);
    var upTo := children[..i + 1];
    assert upTo[..i] == children[..i] && upTo[i] == children[i];
    var rows' := rows[..NewBefore(children, i + 1)];
    if children[i].op != Keep { assert rows'[..|rows'| - 1] == rows[..NewBefore(children, i)]; }
  }

  lemma {:induction false} NewBeforeGrows(children: seq<Child>, i: nat)
    requires i <= |children|
    ensures NewBefore(children, i) <= |NewChildren(children)|
  {
    if i < |children| {
      NewBeforeGrows(children[..|children| - 1], i);
      assert children[..|children| - 1][..i] == children[..i];
    } else {
      assert children[..i] == children;
    }
  }

  // ----- the host's draft -----

  /** The draft request keeps every component but the one in the slot, which becomes the new parent. */
  lemma PatchIsExact(n: Numbers, plan: Plan, rows: seq<Row>, i: nat)
    requires plan.slot < |plan.draftPins| && rows != [] && i < |plan.draftPins|
    ensures var patch := PatchFor(n, plan, rows);
      var pin, row := plan.draftPins[i], rows[|rows| - 1];
      && patch.live == plan.live && patch.working == plan.working && patch.langcode == plan.langcode
      && |patch.pins| == |plan.draftPins|
      && patch.pins[i] ==
         if i == plan.slot then Reference(n, row.bundle, row.id, row.revision)
         else Reference(n, pin.bundle, pin.id, pin.revision)
  {}

  /** A preflight that agrees: it says it saved nothing, it names both revisions, and it opens a first draft. */
  ghost predicate Agrees(checked: PreflightReply, plan: Plan) {
    match checked
    case Checked(confirmed, live, working, opens) =>
      confirmed && live == plan.live && working == plan.working && (plan.working == "" ==> opens)
    case PreflightFailed(_) => false
  }

  /** Nothing is sent for a parent that the draft pins already. */
  lemma PinSentExactly(b: Backend, plan: Plan, rows: seq<Row>, t: Trace)
    requires plan.slot < |plan.draftPins| && rows != []
    ensures var patch := PatchFor(b.numbers, plan, rows);
      var checked := b.preflight(t, patch);
      var t1 := t + [Preflight(patch, checked)];
      var drafted := b.draft(t1, patch);
      PinSent(b, plan, rows, t) ==
        if plan.working != "" && SameId(plan.draftPins[plan.slot].id, rows[|rows| - 1].id) then (t, false)
        else if checked == PreflightFailed(true) then (t1, true)
        else if !Agrees(checked, plan) then (t1, false)
        else (t1 + [HostDraft(patch, drafted)], drafted == DraftFailed(true))
  {
    hide SameId, NextPins;
  }

  /** What the host shows afterwards, and so how the run ends: also after a request that failed. */
  lemma PinningIsExact(b: Backend, spec: Spec, plan: Plan, rows: seq<Row>, t: Trace)
    requires plan.slot < |plan.draftPins| && rows != []
    ensures var (t1, missing) := PinSent(b, plan, rows, t);
      var published := b.host(t1, Default);
      var t2 := t1 + [HostRead(Default, published)];
      var working := b.host(t2, WorkingCopy);
      var t3 := t2 + [HostRead(WorkingCopy, working)];
      Pinning(b, spec, plan, rows, t) ==
        if missing then (Err(MissingEndpoint), t1)
        else if published.ReadFailed? then (Err(Partial(rows, true)), t2)
        else if !published.Found? || !working.Found?
                || published.value.vid != Some(plan.live) || !IsListed(published.value.pins, spec.parentId)
        then (Err(Partial(rows, true)), t3)
        else if working.value.vid.None? || working.value.vid == Some(plan.live)
                || Keys(working.value.pins) != Keys(PatchFor(b.numbers, plan, rows).pins)
        then (Err(Partial(rows, false)), t3)
        else
          (Ok(Finished(rows[|rows| - 1].id, plan.working == "", rows, plan.live, working.value.vid.value)), t3)
  {
    hide SameId, Keys, PatchFor, PinSent;
  }

  // ----- why a preparation stops -----

  lemma MissedExactly(t: Trace)
    ensures EndpointMissed(t) <==>
              && t != []
              && ((t[|t| - 1].Preflight? && t[|t| - 1].checked == PreflightFailed(true))
                  || (t[|t| - 1].HostDraft? && t[|t| - 1].drafted == DraftFailed(true)))
  {}

  /** The types are those of the new children and of the new parent. */
  lemma TypesAreExact(spec: Spec, plan: Plan, bundle: string)
    requires plan.slot < |plan.publishedPins|
    ensures bundle in Types(spec, plan) <==>
              || bundle == plan.publishedPins[plan.slot].bundle
              || exists child <- spec.children :: (child.op == Replace || child.op == Insert) && child.bundle == bundle
  {}

  /** A refused type, a failed create or one in another language or without a revision, a failed draft, a lost read. */
  lemma FaultsAreExact(b: Backend, t: Trace, types: set<string>)
    ensures Faulted(b, t, types) <==>
              (|| (exists bundle <- types :: !b.mayCreate(t, bundle))
               || (t != [] &&
                   var e := t[|t| - 1];
                   || (e.Create? && e.reply.CreateFailed?)
                   || (e.Create? && e.reply.Created? && e.reply.made.langcode != e.creation.langcode)
                   || (e.Create? && e.reply.Created? && e.reply.made.revision == "")
                   || (e.Translate? && !e.ok)
                   || (e.ParagraphRead? && (e.paragraph == NotReturned || e.paragraph == ReadFailed))))
  {}

  /** The error of a create is thrown as it is only if it made nothing. */
  lemma CreateRefusedExactly(b: Backend, t: Trace, types: set<string>)
    ensures CreateRefused(b, t, types) <==>
              (|| (exists bundle <- types :: !b.mayCreate(t, bundle))
               || (t != [] && t[|t| - 1].Create? && t[|t| - 1].reply.CreateFailed? && t[|t| - 1].reply.orphan.id == ""))
  {}

  /** The ids of a prepared list, in order, but for rows without one. */
  lemma {:induction false} IdsAreThoseNamed(rows: seq<Row>, id: string)
    ensures id in Ids(rows) <==> id != "" && exists row <- rows :: row.id == id
  {
    if rows != [] {
      IdsAreThoseNamed(rows[..|rows| - 1], id);
      assert rows == rows[..|rows| - 1] + [rows[|rows| - 1]];
    }
  }

  // ----- what a new and a resumed parent hold -----

  /** The text of a paragraph's revision where a language of it is copied. */
  ghost function OwnRevision(p: Paragraph): string { if p.revision == "" then "id:null" else "id:" + p.revision }

  /**
   * Each language of the component is read at its own revision, and what is read is drafted for the new parent: after
   * all that its children are given, and in the order of the languages.
   */
  lemma LanguagesAreCopied(n: Numbers, spec: Spec, plan: Plan, t: Trace, rows: seq<Row>, i: nat)
    requires Built(n, spec, plan, t, rows) && i < |plan.langs|
    ensures var row := rows[|rows| - 1];
      var all, own := Saved(t).translations, ChildTranslations(spec.children, rows[..|rows| - 1], plan.langcode);
      && row.bundle == plan.publishedPins[plan.slot].bundle
      && own <= all && |all| == |own| + |plan.langs|
      && exists e: Paragraph ::
           && ParagraphRead(Address(row.bundle, plan.parent.id, OwnRevision(plan.parent), plan.langs[i]), Found(e)) in t
           && all[|own| + i] == Translation(row.bundle, row.id, row.revision, plan.langs[i], e.copied)
  {
    hide Saved, ChildRefs, ChildTranslations, ChildCreations, NewChildren, KeptArePinned, Ids;
    var row, own := rows[|rows| - 1], ChildTranslations(spec.children, rows[..|rows| - 1], plan.langcode);
    assert Copied(t, plan.parent, row, plan.langs[i], |own| + i);
    var e: Paragraph :|
      && ParagraphRead(
           Address(row.bundle, plan.parent.id, ParagraphVersion(plan.parent), plan.langs[i]), Found(e)) in t
      && Saved(t).translations[|own| + i]
         == Translation(row.bundle, row.id, row.revision, plan.langs[i], e.copied);
    assert ParagraphVersion(plan.parent) == OwnRevision(plan.parent);
  }

  ghost function Revision(revision: string): string { if revision == "" then "" else "id:" + revision }

  /** A resumed parent is read at its default revision, by the type that the published host pins. */
  lemma ResumedIsRead(n: Numbers, spec: Spec, plan: Plan, t: Trace, rows: seq<Row>)
    requires Resumed(n, spec, plan, t, rows)
    ensures exists resumed: Paragraph ::
              && ParagraphRead(Address(plan.publishedPins[plan.slot].bundle, spec.resumeParentId, "", ""),
                               Found(resumed)) in t
              && rows == [Row(spec.resumeParentId, plan.publishedPins[plan.slot].bundle, true, resumed.revision)]
              && resumed.revision != "" && SameId(resumed.id, spec.resumeParentId)
              && resumed.copied == plan.parent.copied && resumed.references == plan.parent.references
              && |resumed.pins| == |spec.children|
              && Resumes(n, spec, plan, t, resumed)
  {
    hide SameId, ChildMatches, LanguageMatches;
  }

  /** A kept child of a resumed parent is pinned at the revision that the component pins it at. */
  lemma KeptIsResumed(n: Numbers, spec: Spec, plan: Plan, t: Trace, resumed: Paragraph, i: nat)
    requires Resumes(n, spec, plan, t, resumed) && i < |spec.children| && spec.children[i].op == Keep
    ensures var child, pin := spec.children[i], resumed.pins[i];
      var at := FirstWith(plan.parent.pins, child.id);
      at >= 0 && n.positive(pin.revision) && SameId(pin.id, child.id) && pin.revision == plan.parent.pins[at].revision
  {
    hide SameId, LanguageMatches;
    assert ChildMatches(n, t, spec.children[i], resumed.pins[i], plan.parent.pins, plan.langcode);
  }

  /** A new child of a resumed parent is none of the component's, and was read as the request would have made it. */
  lemma NewIsResumed(n: Numbers, spec: Spec, plan: Plan, t: Trace, resumed: Paragraph, i: nat)
    requires Resumes(n, spec, plan, t, resumed) && i < |spec.children| && spec.children[i].op != Keep
    ensures var child, pin := spec.children[i], resumed.pins[i];
      && n.positive(pin.revision) && !IsListed(plan.parent.pins, pin.id) && !SameId(pin.id, child.id)
      && (exists e: Paragraph ::
            && ParagraphRead(Address(child.bundle, pin.id, Revision(pin.revision), ""), Found(e)) in t
            && SameId(e.id, pin.id) && e.bundle == child.bundle && e.revision == pin.revision
            && e.copied == child.attributes)
      && forall w <- child.translations :: w.langcode != plan.langcode ==>
           exists e: Paragraph ::
             && ParagraphRead(Address(child.bundle, pin.id, Revision(pin.revision), w.langcode), Found(e)) in t
             && e.langcode == w.langcode && e.copied == w.attributes
  {
    hide SameId, LanguageMatches;
    var child, pin := spec.children[i], resumed.pins[i];
    assert ChildMatches(n, t, child, pin, plan.parent.pins, plan.langcode);
    assert VersionText(pin.revision) == Revision(pin.revision);
    assert ReadBack(t, child, pin);
    forall w <- child.translations | w.langcode != plan.langcode
      ensures exists e: Paragraph ::
                && ParagraphRead(Address(child.bundle, pin.id, Revision(pin.revision), w.langcode), Found(e)) in t
                && e.langcode == w.langcode && e.copied == w.attributes
    {
      assert WordingReadBack(t, child, pin, w);
    }
  }

  /** Each language of the component was read at its revision, and the resumed parent has it alike. */
  lemma LanguageIsResumed(n: Numbers, spec: Spec, plan: Plan, t: Trace, resumed: Paragraph, lang: string)
    requires Resumes(n, spec, plan, t, resumed) && lang in plan.langs
    ensures exists source: Paragraph, copy: Paragraph ::
              && ParagraphRead(Address(plan.parent.bundle, plan.parent.id, Revision(plan.parent.revision), lang),
                               Found(source)) in t
              && ParagraphRead(Address(if resumed.bundle == "" then plan.parent.bundle else resumed.bundle, resumed.id,
                                       Revision(resumed.revision), lang), Found(copy)) in t
              && source.langcode == lang && copy.langcode == lang && source.copied == copy.copied
  {
    hide SameId, ChildMatches;
    assert LanguageMatches(t, plan.parent, resumed, lang);
    var source: Paragraph, copy: Paragraph :|
      && ParagraphRead(SourceAddress(plan.parent, lang), Found(source)) in t
      && ParagraphRead(CopyAddress(plan.parent, resumed, lang), Found(copy)) in t
      && source.langcode == copy.langcode == lang && source.copied == copy.copied;
    assert SourceAddress(plan.parent, lang)
        == Address(plan.parent.bundle, plan.parent.id, Revision(plan.parent.revision), lang);
    assert CopyAddress(plan.parent, resumed, lang)
        == Address(if resumed.bundle == "" then plan.parent.bundle else resumed.bundle, resumed.id,
                   Revision(resumed.revision), lang);
  }
}
