/**
 * The nested draft client as it runs: requests are sent one by one, new paragraphs are recorded in a list that errors
 * carry, and loops go over children and languages.
 */
module NestedClient {
  import opened Common
  import CanonicalDraft
  import opened NestedDraft

  class Client {
    const b: Backend
    var trace: Trace
    /** The new paragraphs so far, the mutable list that errors carry. */
    var prepared: seq<Row>

    constructor (b: Backend)
      ensures this.b == b && trace == [] && prepared == []
    {
      this.b := b;
      trace, prepared := [], [];
    }

    method GetHost(version: Version) returns (r: Read<HostEntity>)
      requires Honest(b, trace)
      modifies this`trace
      ensures Honest(b, trace) && Saved(trace) == Saved(old(trace))
      ensures trace == old(trace) + [HostRead(version, r)] && r == b.host(old(trace), version)
    {
      r := b.host(trace, version);
      Appended(b, trace, HostRead(version, r));
      trace := trace + [HostRead(version, r)];
    }

    method GetInventory() returns (r: Read<Inventory>)
      requires Honest(b, trace)
      modifies this`trace
      ensures Honest(b, trace) && Saved(trace) == Saved(old(trace))
      ensures trace == old(trace) + [InventoryRead(r)] && r == b.inventory(old(trace))
    {
      r := b.inventory(trace);
      Appended(b, trace, InventoryRead(r));
      trace := trace + [InventoryRead(r)];
    }

    method GetParagraph(address: Address) returns (r: Read<Paragraph>)
      requires Honest(b, trace)
      modifies this`trace
      ensures Honest(b, trace) && Saved(trace) == Saved(old(trace))
      ensures trace == old(trace) + [ParagraphRead(address, r)] && r == b.paragraph(old(trace), address)
    {
      r := b.paragraph(trace, address);
      Appended(b, trace, ParagraphRead(address, r));
      trace := trace + [ParagraphRead(address, r)];
    }

    method GetLangs(bundle: string, id: string, revision: string) returns (r: LangsReply)
      requires Honest(b, trace)
      modifies this`trace
      ensures Honest(b, trace) && Saved(trace) == Saved(old(trace))
      ensures r == b.langs(old(trace), bundle, id, revision)
      ensures trace == old(trace) + [LangsRead(bundle, id, revision, r)]
    {
      r := b.langs(trace, bundle, id, revision);
      Appended(b, trace, LangsRead(bundle, id, revision, r));
      trace := trace + [LangsRead(bundle, id, revision, r)];
    }

    method CreateEntity(creation: Creation) returns (r: CreateReply)
      requires Honest(b, trace)
      modifies this`trace
      ensures Honest(b, trace)
      ensures var l := Saved(old(trace));
        Saved(trace) == l.(creations := l.creations + [creation], reported := l.reported + NonEmpty(MadeId(r)))
      ensures trace == old(trace) + [Create(creation, r)]
    {
      r := b.create(trace, creation);
      Appended(b, trace, Create(creation, r));
      trace := trace + [Create(creation, r)];
    }

    method CreateTranslationDraft(t: Translation) returns (ok: bool)
      requires Honest(b, trace)
      modifies this`trace
      ensures Honest(b, trace) && Saved(trace) == Post(Saved(old(trace)), Translate(t, ok))
      ensures trace == old(trace) + [Translate(t, ok)]
    {
      ok := b.translate(trace, t);
      Appended(b, trace, Translate(t, ok));
      trace := trace + [Translate(t, ok)];
    }

    method SendPreflight(patch: HostPatch) returns (r: PreflightReply)
      requires Honest(b, trace)
      modifies this`trace
      ensures Honest(b, trace) && Saved(trace) == Saved(old(trace))
      ensures trace == old(trace) + [Preflight(patch, r)] && r == b.preflight(old(trace), patch)
    {
      r := b.preflight(trace, patch);
      Appended(b, trace, Preflight(patch, r));
      trace := trace + [Preflight(patch, r)];
    }

    method SendDraft(patch: HostPatch) returns (r: DraftReply)
      requires Honest(b, trace)
      modifies this`trace
      ensures Honest(b, trace) && Saved(trace) == Post(Saved(old(trace)), HostDraft(patch, r))
      ensures trace == old(trace) + [HostDraft(patch, r)] && r == b.draft(old(trace), patch)
    {
      r := b.draft(trace, patch);
      Appended(b, trace, HostDraft(patch, r));
      trace := trace + [HostDraft(patch, r)];
    }

    // ----- new paragraphs -----

    /** The prepared list names exactly the ids reported so far, and no other paragraph was translated. */
    ghost predicate Accounted()
      reads this
    {
      Ids(prepared) == Saved(trace).reported && Saved(trace).foreign == []
    }

    method CreateParagraph(creation: Creation, wordings: seq<Wording>, isParent: bool) returns (r: Result<Pin, Failure>)
      requires Honest(b, trace) && Accounted()
      modifies this
      ensures Honest(b, trace) && Accounted() && old(trace) <= trace
      ensures Saved(trace).patches == Saved(old(trace)).patches
      ensures r.Ok? ==>
                && |prepared| == |old(prepared)| + 1 && prepared[..|old(prepared)|] == old(prepared)
                && var row := prepared[|old(prepared)|];
                && row.bundle == creation.bundle && row.isParent == isParent && row.revision != ""
                && r.value == Embed(b.numbers, row.bundle, row.id, row.revision)
                && Saved(trace).creations == Saved(old(trace)).creations + [creation]
                && Saved(trace).translations == Saved(old(trace)).translations
                   + Translations(row.bundle, row.id, row.revision, wordings, creation.langcode)
      ensures r.Err? ==>
                && (|| r.error == Partial(prepared, false)
                    || (r.error == Rethrown && prepared == [] && CreateRefused(b, trace, {creation.bundle})))
                && Faulted(b, trace, {creation.bundle})
    {
      hide Honest, Saved, Embed, Ids, Translations;
      if !b.mayCreate(trace, creation.bundle) {
        return Err(if prepared != [] then Partial(prepared, false) else Rethrown);
      }
      var reply := CreateEntity(creation);
      if reply.CreateFailed? {
        if reply.orphan.id != "" {
          IdsAppend(prepared, Row(reply.orphan.id, creation.bundle, isParent, reply.orphan.revision));
          prepared := prepared + [Row(reply.orphan.id, creation.bundle, isParent, reply.orphan.revision)];
        }
        return Err(if prepared != [] then Partial(prepared, false) else Rethrown);
      }
      var made := reply.made;
      var row := Row(made.id, creation.bundle, isParent, made.revision);
      IdsAppend(prepared, row);
      prepared := prepared + [row];
      if made.langcode != creation.langcode || made.revision == "" { return Err(Partial(prepared, false)); }
      var ok := TranslateNew(row, wordings, creation.langcode);
      if !ok { return Err(Partial(prepared, false)); }
      return Ok(Embed(b.numbers, creation.bundle, made.id, made.revision));
    }

    /** The other languages of a paragraph just made. */
    method TranslateNew(row: Row, wordings: seq<Wording>, lang: string) returns (ok: bool)
      requires Honest(b, trace) && Saved(trace).foreign == []
      requires row.id != "" ==> row.id in Saved(trace).reported
      modifies this`trace
      ensures Honest(b, trace) && old(trace) <= trace
      ensures Saved(trace) == Saved(old(trace)).(translations := Saved(trace).translations)
      ensures ok ==> Saved(trace).translations == Saved(old(trace)).translations
                                                  + Translations(row.bundle, row.id, row.revision, wordings, lang)
      ensures !ok ==> Faulted(b, trace, {})
    {
      hide Honest, Saved;
      ghost var before := Saved(trace);
      for i := 0 to |wordings|
        invariant Honest(b, trace) && old(trace) <= trace
        invariant Saved(trace) == before.(translations := Saved(trace).translations)
        invariant Saved(trace).translations ==
                  before.translations + Translations(row.bundle, row.id, row.revision, wordings[..i], lang)
      {
        assert wordings[..i + 1][..i] == wordings[..i];
        if wordings[i].langcode != lang {
          var sent := CreateTranslationDraft(
            Translation(row.bundle, row.id, row.revision, wordings[i].langcode, wordings[i].attributes));
          if !sent { return false; }
        }
      }
      assert wordings[..|wordings|] == wordings;
      return true;
    }

    /** Make the new children, in order, and list all children for the new parent. */
    method CreateChildren(children: seq<Child>, childPins: seq<Pin>, lang: string)
      returns (r: Result<seq<Pin>, Failure>)
      requires Honest(b, trace) && Accounted() && prepared == []
      requires KeptArePinned(children, childPins)
      modifies this
      ensures Honest(b, trace) && Accounted() && old(trace) <= trace
      ensures Saved(trace).patches == Saved(old(trace)).patches
      ensures r.Ok? ==>
                ChildrenMade(b.numbers, children, childPins, lang, Saved(old(trace)), Saved(trace), prepared, r.value)
      ensures r.Err? ==>
                && (|| r.error == Partial(prepared, false)
                    || (r.error == Rethrown && prepared == [] && CreateRefused(b, trace, NewTypes(children))))
                && Faulted(b, trace, NewTypes(children))
    {
      hide Honest, Saved, Embed, PinRef, SameId, ChildrenMade, Accounted, ChildRefs, KeptArePinned;
      hide Faulted, CreateRefused, NewTypes, FirstWith;
      var refs := [];
      ghost var before := Saved(trace);
      NoChildrenMade(b.numbers, childPins, lang, before);
      assert children[..0] == [];
      for i := 0 to |children|
        invariant Honest(b, trace) && Accounted() && old(trace) <= trace
        invariant Saved(trace).patches == before.patches
        invariant ChildrenMade(b.numbers, children[..i], childPins, lang, before, Saved(trace), prepared, refs)
      {
        assert children[..i + 1] == children[..i] + [children[i]];
        if children[i].op == Keep { KeptIsPinned(children, childPins, i); }
        var next := CreateChild(children[i], childPins, lang, children[..i], before, refs);
        if next.Err? {
          FewerTypes(b, trace, children, i);
          return Err(next.error);
        }
        refs := refs + [next.value];
      }
      assert children[..|children|] == children;
      return Ok(refs);
    }

    /** One entry of the new parent's child list. The ghost parameters are what the loop has done so far. */
    method CreateChild(
      child: Child, childPins: seq<Pin>, lang: string,
      ghost done: seq<Child>, ghost before: Ledger, ghost refs: seq<Pin>)
      returns (r: Result<Pin, Failure>)
      requires Honest(b, trace) && Accounted()
      requires ChildrenMade(b.numbers, done, childPins, lang, before, Saved(trace), prepared, refs)
      requires child.op == Keep ==> FirstWith(childPins, child.id) >= 0
      modifies this
      ensures Honest(b, trace) && Accounted() && old(trace) <= trace
      ensures Saved(trace).patches == Saved(old(trace)).patches
      ensures r.Ok? ==>
                ChildrenMade(
                  b.numbers, done + [child], childPins, lang, before, Saved(trace), prepared, refs + [r.value])
      ensures r.Err? ==>
                && (|| r.error == Partial(prepared, false)
                    || (r.error == Rethrown && prepared == [] && CreateRefused(b, trace, NewTypes([child]))))
                && Faulted(b, trace, NewTypes([child]))
    {
      hide Honest, Saved, Embed, PinRef, SameId, ChildrenMade, Translations, Accounted;
      ghost var rows, l := prepared, Saved(trace);
      if child.op == Keep {
        OneMoreKept(b.numbers, done, child, childPins, lang, before, l, rows, refs);
        return Ok(PinRef(b.numbers, childPins[FirstWith(childPins, child.id)]));
      }
      r := CreateParagraph(Creation(child.bundle, lang, child.attributes, NoReferences), child.translations, false);
      if r.Ok? {
        assert prepared == rows + [prepared[|rows|]];
        OneMoreMade(b.numbers, done, child, childPins, lang, before, l, rows, refs, Saved(trace), prepared[|rows|]);
      }
    }

    /** Give the new parent the component's other languages. */
    method CopyParentTranslations(source: Paragraph, row: Row, langs: seq<string>) returns (ok: bool)
      requires Honest(b, trace) && Saved(trace).foreign == []
      requires row.id != "" ==> row.id in Saved(trace).reported
      modifies this`trace
      ensures Honest(b, trace) && old(trace) <= trace
      ensures Saved(trace) == Saved(old(trace)).(translations := Saved(trace).translations)
      ensures Saved(old(trace)).translations <= Saved(trace).translations
      ensures ok ==> && |Saved(trace).translations| == |Saved(old(trace)).translations| + |langs|
                     && AllCopied(trace, source, row, langs, |Saved(old(trace)).translations|)
      ensures !ok ==> Faulted(b, trace, {})
    {
      hide Honest, Saved, Copied, AllCopied;
      ghost var before := Saved(trace);
      NoneCopied(trace, source, row, |before.translations|);
      for i := 0 to |langs|
        invariant Honest(b, trace) && old(trace) <= trace
        invariant Saved(trace) == before.(translations := Saved(trace).translations)
        invariant before.translations <= Saved(trace).translations
        invariant |Saved(trace).translations| == |before.translations| + i
        invariant AllCopied(trace, source, row, langs[..i], |before.translations|)
      {
        ghost var t := trace;
        var read := GetParagraph(Address(row.bundle, source.id, ParagraphVersion(source), langs[i]));
        if !read.Found? { return false; }
        var sent := CreateTranslationDraft(Translation(row.bundle, row.id, row.revision, langs[i], read.value.copied));
        if !sent { return false; }
        AllCopiedStay(t, trace, source, row, langs[..i], |before.translations|);
        NowCopied(trace, source, row, langs[i], |before.translations| + i, read.value);
        OneMoreCopied(trace, source, row, langs[..i], langs[i], |before.translations|);
        assert langs[..i + 1] == langs[..i] + [langs[i]];
      }
      assert langs[..|langs|] == langs;
      return true;
    }

    // ----- pinning the new parent -----

    method ConfirmLanded(spec: Spec, live: string, expected: seq<Pin>) returns (c: Confirmation)
      requires Honest(b, trace)
      modifies this`trace
      ensures Honest(b, trace) && trace == ReRead(b, old(trace))
      ensures c.Landed? ==> ShowsPublished(trace, spec, live) && ShowsDraft(trace, live, expected, c.working)
      ensures c.NotLanded? ==> (c.uncertain <==> !ShowsPublished(trace, spec, live))
      ensures c == NotLanded(false) ==> forall working :: !ShowsDraft(trace, live, expected, working)
    {
      hide Honest, Saved, Pinned, Keys;
      var published := GetHost(Default);
      if published.ReadFailed? { return NotLanded(true); }
      var working := GetHost(WorkingCopy);
      if !published.Found? || !working.Found? { return NotLanded(true); }
      if published.value.vid != Some(live) { return NotLanded(true); }
      if !Pinned(published.value.pins, spec.parentId) { return NotLanded(true); }
      if working.value.vid.None? || working.value.vid.value == live { return NotLanded(false); }
      if Keys(working.value.pins) != Keys(expected) { return NotLanded(false); }
      return Landed(working.value.vid.value);
    }

    /** Preflight, send and confirm the host's draft. */
    method PinParent(spec: Spec, plan: Plan) returns (r: Result<Outcome, Failure>)
      requires Honest(b, trace) && plan.slot < |plan.draftPins| && prepared != []
      modifies this`trace
      ensures Honest(b, trace) && (r, trace) == Pinning(b, spec, plan, prepared, old(trace))
    {
      hide Honest, Saved, NextPins, ShowsPublished, ShowsDraft, SameId, ReRead, Verdict;
      var row := prepared[|prepared| - 1];
      var patch := PatchFor(b.numbers, plan, prepared);
      if AlreadyPinned(plan, row) {
        r := Conclude(spec, plan, patch.pins);
        return;
      }
      var checked := SendPreflight(patch);
      if checked.PreflightFailed? && checked.missingEndpoint { return Err(MissingEndpoint); }
      if Confirms(checked, patch) {
        var drafted := SendDraft(patch);
        if drafted.DraftFailed? && drafted.missingEndpoint { return Err(MissingEndpoint); }
      }
      r := Conclude(spec, plan, patch.pins);
    }

    /** However the draft request was answered, the re-read decides. */
    method Conclude(spec: Spec, plan: Plan, next: seq<Pin>) returns (r: Result<Outcome, Failure>)
      requires Honest(b, trace) && prepared != []
      modifies this`trace
      ensures Honest(b, trace) && trace == ReRead(b, old(trace)) && r == Verdict(spec, plan, prepared, next, trace)
    {
      hide Honest, Saved, ShowsPublished, ReRead, Pinned, Keys;
      var c := ConfirmLanded(spec, plan.live, next);
      if c.NotLanded? { return Err(Partial(prepared, c.uncertain)); }
      return Ok(Finished(prepared[|prepared| - 1].id, plan.working == "", prepared, plan.live, c.working));
    }

    // ----- checks and reads before anything is made -----

    method CheckResumedChild(child: Child, pin: Pin, childPins: seq<Pin>, lang: string) returns (ok: bool)
      requires Honest(b, trace)
      modifies this`trace
      ensures Honest(b, trace) && old(trace) <= trace && Saved(trace) == Saved(old(trace))
      ensures ok ==> ChildMatches(b.numbers, trace, child, pin, childPins, lang)
      ensures !ok ==> ChildDiffers(b.numbers, trace, child, pin, childPins, lang)
    {
      hide Honest, Saved, SameId, Pinned;
      if !PinMatches(b.numbers, child, pin, childPins) { return false; }
      if child.op == Keep { return true; }
      var read := GetParagraph(Address(child.bundle, pin.id, VersionText(pin.revision), ""));
      if !read.Found? { return false; }
      var e := read.value;
      if !SameId(e.id, pin.id) || e.bundle != child.bundle || e.revision != pin.revision
         || e.copied != child.attributes {
        return false;
      }
      assert ReadBack(trace, child, pin);
      assert ChildMatches(b.numbers, trace, child.(translations := child.translations[..0]), pin, childPins, lang);
      hide PinMatches, ReadBack, WordingReadBack, ChildMatches;
      for i := 0 to |child.translations|
        invariant Honest(b, trace) && old(trace) <= trace && Saved(trace) == Saved(old(trace))
        invariant ChildMatches(b.numbers, trace, child.(translations := child.translations[..i]), pin, childPins, lang)
      {
        ghost var t := trace;
        var w := child.translations[i];
        if w.langcode != lang {
          var translated := GetParagraph(Address(child.bundle, pin.id, VersionText(pin.revision), w.langcode));
          if !translated.Found? || translated.value.langcode != w.langcode || translated.value.copied != w.attributes {
            return false;
          }
          WordingIsReadBack(trace, child, pin, w, translated.value);
        }
        ChildMatchesStays(b.numbers, t, trace, child.(translations := child.translations[..i]), pin, childPins, lang);
        OneMoreWording(b.numbers, trace, child, i, pin, childPins, lang);
      }
      assert child.(translations := child.translations[..|child.translations|]) == child;
      return true;
    }

    method AssertResumeMatches(spec: Spec, plan: Plan, resumed: Paragraph) returns (ok: bool)
      requires Honest(b, trace)
      modifies this`trace
      ensures Honest(b, trace) && old(trace) <= trace && Saved(trace) == Saved(old(trace))
      ensures ok ==> Resumes(b.numbers, spec, plan, trace, resumed)
      ensures !ok ==> ResumeDiffers(b.numbers, spec, plan, trace, resumed)
    {
      hide Honest, Saved, SameId, ChildMatches, LanguageMatches, ChildDiffers, LanguageReadDiffers;
      if resumed.revision == "" || !SameId(resumed.id, spec.resumeParentId) { return false; }
      if plan.parent.copied != resumed.copied || plan.parent.references != resumed.references { return false; }
      if |resumed.pins| != |spec.children| { return false; }
      for i := 0 to |spec.children|
        invariant Honest(b, trace) && old(trace) <= trace && Saved(trace) == Saved(old(trace))
        invariant forall j :: 0 <= j < i ==>
                    ChildMatches(b.numbers, trace, spec.children[j], resumed.pins[j], plan.parent.pins, plan.langcode)
      {
        ghost var t := trace;
        var same := CheckResumedChild(spec.children[i], resumed.pins[i], plan.parent.pins, plan.langcode);
        if !same { return false; }
        forall j | 0 <= j < i
          ensures ChildMatches(b.numbers, trace, spec.children[j], resumed.pins[j], plan.parent.pins, plan.langcode)
        {
          ChildMatchesStays(b.numbers, t, trace, spec.children[j], resumed.pins[j], plan.parent.pins, plan.langcode);
        }
      }
      ghost var t := trace;
      ok := CheckResumedLanguages(plan, resumed);
      forall j | 0 <= j < |spec.children|
        ensures ChildMatches(b.numbers, trace, spec.children[j], resumed.pins[j], plan.parent.pins, plan.langcode)
      {
        ChildMatchesStays(b.numbers, t, trace, spec.children[j], resumed.pins[j], plan.parent.pins, plan.langcode);
      }
    }

    method CheckResumedLanguages(plan: Plan, resumed: Paragraph) returns (ok: bool)
      requires Honest(b, trace)
      modifies this`trace
      ensures Honest(b, trace) && old(trace) <= trace && Saved(trace) == Saved(old(trace))
      ensures ok ==> forall lang <- plan.langs :: LanguageMatches(trace, plan.parent, resumed, lang)
      ensures !ok ==> exists lang <- plan.langs :: LanguageReadDiffers(trace, plan.parent, resumed, lang)
    {
      hide Honest, Saved;
      for i := 0 to |plan.langs|
        invariant Honest(b, trace) && old(trace) <= trace && Saved(trace) == Saved(old(trace))
        invariant forall lang <- plan.langs[..i] :: LanguageMatches(trace, plan.parent, resumed, lang)
      {
        ghost var t := trace;
        var lang := plan.langs[i];
        var source := GetParagraph(SourceAddress(plan.parent, lang));
        if !source.Found? {
          assert LanguageReadDiffers(trace, plan.parent, resumed, lang);
          return false;
        }
        assert ParagraphRead(SourceAddress(plan.parent, lang), Found(source.value)) in trace;
        var copy := GetParagraph(CopyAddress(plan.parent, resumed, lang));
        if !copy.Found? {
          assert LanguageReadDiffers(trace, plan.parent, resumed, lang);
          return false;
        }
        assert ParagraphRead(SourceAddress(plan.parent, lang), Found(source.value)) in trace;
        if source.value.langcode != lang || copy.value.langcode != lang || source.value.copied != copy.value.copied {
          assert LanguageReadDiffers(trace, plan.parent, resumed, lang);
          return false;
        }
        forall l <- plan.langs[..i]
          ensures LanguageMatches(trace, plan.parent, resumed, l)
        {
          LanguageMatchesStays(t, trace, plan.parent, resumed, l);
        }
        assert LanguageMatches(trace, plan.parent, resumed, lang);
        assert plan.langs[..i + 1] == plan.langs[..i] + [lang];
      }
      assert plan.langs[..|plan.langs|] == plan.langs;
      return true;
    }

    method RequiredTranslationLangs(bundle: string, id: string, revision: string, lang: string)
      returns (r: Option<seq<string>>)
      requires Honest(b, trace)
      modifies this`trace
      ensures Honest(b, trace) && Saved(trace) == Saved(old(trace))
      ensures var reply := b.langs(old(trace), bundle, id, revision);
        trace == old(trace) + [LangsRead(bundle, id, revision, reply)] && r == LangsSay(reply, lang)
    {
      hide Honest, Saved;
      var reply := GetLangs(bundle, id, revision);
      if reply.LangsFailed? { return None; }
      var langs := [];
      if reply.Langs? {
        for i := 0 to |reply.rows|
          invariant langs == RequiredLangs(reply.rows[..i], lang)
        {
          assert reply.rows[..i + 1][..i] == reply.rows[..i];
          var row := reply.rows[i];
          if row != "" && row != lang && row !in langs { langs := langs + [row]; }
        }
        assert reply.rows[..|reply.rows|] == reply.rows;
      }
      return Some(langs);
    }

    /** The inventory, the published revision and the working copy. */
    method ReadHost(spec: Spec) returns (r: Option<Plan>)
      requires Honest(b, trace)
      modifies this`trace
      ensures Honest(b, trace) && (r, trace) == HostPlan(b, spec, old(trace))
    {
      hide Honest, Saved, SameId, AllPinned, Reusable, FirstWith, CanonicalDraft.FindRow, CanonicalDraft.ValidVid;
      var listed := GetInventory();
      if !listed.Found? { return None; }
      var inventory := listed.value;
      if !CanonicalDraft.ValidVid(inventory.live)
         || (inventory.working.Some? && !CanonicalDraft.ValidVid(inventory.working.value.vid)) {
        return None;
      }
      if inventory.langcode == "" { return None; }
      var live := inventory.live;
      if spec.liveRevisionId != "" && spec.liveRevisionId != live { return None; }
      var working := "";
      if inventory.working.Some? && inventory.working.value.vid != live { working := inventory.working.value.vid; }
      if working == "" && !inventory.opensDrafts { return None; }
      if working != "" && !CanonicalDraft.IsDraftRow(
             CanonicalDraft.FindRow(inventory.working.value.translations, inventory.langcode)) {
        return None;
      }
      assert InventoryFits(spec, inventory) && working == WorkingOf(inventory);
      hide InventoryFits, WorkingOf;
      var published := GetHost(Default);
      if !published.Found? || published.value.vid != Some(live) { return None; }
      var pins := published.value.pins;
      var slot := FirstWith(pins, spec.parentId);
      if slot < 0 || Reusable(pins[slot]) || !AllPinned(b.numbers, pins) { return None; }
      var draftPins := pins;
      if working != "" {
        var draft := GetHost(ById(working));
        if !draft.Found? || draft.value.vid != Some(working) { return None; }
        draftPins := draft.value.pins;
        if !AllPinned(b.numbers, draftPins) || |draftPins| != |pins| { return None; }
      }
      var draftSlot := FirstWith(draftPins, spec.parentId);
      if draftSlot < 0 && spec.resumeParentId != "" { draftSlot := FirstWith(draftPins, spec.resumeParentId); }
      if draftSlot < 0 || draftSlot != slot || pins[slot].bundle == "" { return None; }
      return Some(Plan(
        live, working, inventory.langcode, inventory.replacesNested, pins, draftPins, slot, NO_PARAGRAPH, []));
    }

    /** The published component with its children, and the languages it has. */
    method ReadParent(spec: Spec, host: Plan) returns (r: Option<Plan>)
      requires Honest(b, trace) && host.slot < |host.publishedPins|
      modifies this`trace
      ensures Honest(b, trace) && (r, trace) == ParentPlan(b, spec, host, old(trace))
    {
      hide Honest, Saved, SameId, AllPinned, Reusable, ChildrenFit, Pinned, RequiredLangs;
      var pin := host.publishedPins[host.slot];
      var read := GetParagraph(ParentAddress(spec, host));
      if !read.Found? || !SameId(read.value.id, spec.parentId) { return None; }
      var parent := read.value;
      if exists p <- parent.pins :: Reusable(p) { return None; }
      if !AllPinned(b.numbers, parent.pins) { return None; }
      if spec.resumeParentId != ""
         && (Pinned(host.publishedPins, spec.resumeParentId) || Pinned(parent.pins, spec.resumeParentId)) {
        return None;
      }
      var langs := RequiredTranslationLangs(pin.bundle, spec.parentId, pin.revision, host.langcode);
      if langs.None? { return None; }
      var fit := AssertChildren(spec.children, parent.pins, langs.value);
      if !fit { return None; }
      return Some(host.(parent := parent, langs := langs.value));
    }

    method MayCreateAll(spec: Spec, bundle: string) returns (ok: bool)
      ensures ok <==> PermitsAll(b, spec, bundle, trace)
    {
      for i := 0 to |spec.children|
        invariant forall j :: 0 <= j < i && spec.children[j].op != Keep ==> b.mayCreate(trace, spec.children[j].bundle)
      {
        if spec.children[i].op != Keep && !b.mayCreate(trace, spec.children[i].bundle) { return false; }
      }
      return b.mayCreate(trace, bundle);
    }

    // ----- the sequence -----

    /** Take over a parent prepared by an earlier attempt. Nothing is created. */
    method Resume(spec: Spec, plan: Plan) returns (ok: bool)
      requires Honest(b, trace) && prepared == []
      requires plan.slot < |plan.publishedPins|
      modifies this
      ensures Honest(b, trace) && old(trace) <= trace && Saved(trace) == Saved(old(trace))
      ensures ok ==> Resumed(b.numbers, spec, plan, trace, prepared) && Ids(prepared) == NonEmpty(spec.resumeParentId)
      ensures !ok ==> prepared == [] && ResumeFails(b.numbers, spec, plan, trace)
    {
      hide Honest, Saved, Resumes, ResumeDiffers;
      var bundle := plan.publishedPins[plan.slot].bundle;
      var read := GetParagraph(Address(bundle, spec.resumeParentId, "", ""));
      if !read.Found? { return false; }
      ok := AssertResumeMatches(spec, plan, read.value);
      if ok {
        IdsAppend([], Row(spec.resumeParentId, bundle, true, read.value.revision));
        prepared := prepared + [Row(spec.resumeParentId, bundle, true, read.value.revision)];
      }
    }

    /** Make the new children and the new parent. */
    method Assemble(spec: Spec, plan: Plan) returns (failure: Option<Failure>)
      requires Honest(b, trace) && Accounted() && prepared == [] && Saved(trace) == NOTHING_SAVED
      requires plan.slot < |plan.publishedPins| && KeptArePinned(spec.children, plan.parent.pins)
      modifies this
      ensures Honest(b, trace) && Accounted() && old(trace) <= trace && Saved(trace).patches == []
      ensures failure.None? ==> prepared != [] && Assembled(b.numbers, spec, plan, Saved(trace), prepared)
      ensures failure.Some? ==>
                && (|| failure.value == Partial(prepared, false)
                    || (failure.value == Rethrown && prepared == [] && CreateRefused(b, trace, Types(spec, plan))))
                && Faulted(b, trace, Types(spec, plan))
    {
      hide Honest, Saved, Accounted, ChildrenMade, KeptArePinned, Translations, Embed, Assembled;
      var bundle := plan.publishedPins[plan.slot].bundle;
      var refs := CreateChildren(spec.children, plan.parent.pins, plan.langcode);
      if refs.Err? { return Some(refs.error); }
      ghost var rows, l := prepared, Saved(trace);
      var creation := Creation(
        bundle, plan.langcode, plan.parent.copied, ParentReferences(plan.parent.references, refs.value));
      var made := CreateParagraph(creation, [], true);
      if made.Err? { return Some(made.error); }
      ghost var row := prepared[|rows|];
      NothingToTranslate(row, plan.langcode);
      assert prepared == rows + [row];
      Assembling(b.numbers, spec, plan, rows, l, refs.value, row, Saved(trace));
      return None;
    }

    /** The new parent with everything it needs. */
    method Build(spec: Spec, plan: Plan) returns (failure: Option<Failure>)
      requires Honest(b, trace) && prepared == [] && Saved(trace) == NOTHING_SAVED
      requires plan.slot < |plan.publishedPins| && KeptArePinned(spec.children, plan.parent.pins)
      modifies this
      ensures Honest(b, trace) && Accounted() && old(trace) <= trace && Saved(trace).patches == []
      ensures failure.None? ==> Built(b.numbers, spec, plan, trace, prepared)
      ensures failure.Some? ==>
                && (|| failure.value == Partial(prepared, false)
                    || (failure.value == Rethrown && prepared == [] && CreateRefused(b, trace, Types(spec, plan))))
                && Faulted(b, trace, Types(spec, plan))
    {
      assert Ids([]) == [];
      hide Honest, Saved, Ids, KeptArePinned, Built, Assembled, Faulted, CreateRefused, Types;
      failure := Assemble(spec, plan);
      if failure.Some? { return; }
      failure := GiveLanguages(spec, plan);
    }

    /** The new parent, the last in the list, gets the component's other languages. */
    method GiveLanguages(spec: Spec, plan: Plan) returns (failure: Option<Failure>)
      requires Honest(b, trace) && Accounted() && prepared != [] && plan.slot < |plan.publishedPins|
      requires Saved(trace).patches == [] && Assembled(b.numbers, spec, plan, Saved(trace), prepared)
      modifies this`trace
      ensures Honest(b, trace) && Accounted() && old(trace) <= trace && Saved(trace).patches == []
      ensures failure.None? ==> Built(b.numbers, spec, plan, trace, prepared)
      ensures failure.Some? ==> failure.value == Partial(prepared, false) && Faulted(b, trace, Types(spec, plan))
    {
      hide Honest, Saved, Ids, KeptArePinned, AllCopied, Built, Assembled, Faulted, CreateRefused, Types;
      var row := prepared[|prepared| - 1];
      if row.id != "" { IdsContain(prepared, row); }
      ghost var l := Saved(trace);
      var copied := CopyParentTranslations(plan.parent, row, plan.langs);
      if !copied {
        FaultedForAll(b, trace, Types(spec, plan));
        return Some(Partial(prepared, false));
      }
      AssembledIsBuilt(b.numbers, spec, plan, l, prepared, trace);
      return None;
    }

    /** Take over a parent, or make one. */
    method Prepare(spec: Spec, plan: Plan) returns (failure: Option<Failure>)
      requires Honest(b, trace) && prepared == [] && Saved(trace) == NOTHING_SAVED
      requires plan.slot < |plan.publishedPins| == |plan.draftPins|
      requires KeptArePinned(spec.children, plan.parent.pins)
      modifies this
      ensures Honest(b, trace) && old(trace) <= trace
      ensures Saved(trace).foreign == [] && Saved(trace).patches == []
      ensures spec.resumeParentId != "" ==> Saved(trace) == NOTHING_SAVED
      ensures failure.None? ==>
                && Ready(b.numbers, spec, plan, trace, prepared) && prepared != []
                && Ids(prepared) == if spec.resumeParentId != "" then [spec.resumeParentId] else Saved(trace).reported
      ensures failure.Some? ==>
                && Reported(spec, trace, prepared, failure.value) && Unprepared(b, spec, plan, trace, failure.value)
    {
      assert Ids([]) == [];
      hide Honest, Saved, Ready, KeptArePinned, Resumed, Built, Ids, Faulted, CreateRefused, ResumeFails;
      if spec.resumeParentId != "" {
        var resumed := Resume(spec, plan);
        if !resumed { return Some(Refused); }
      } else {
        failure := Build(spec, plan);
        if failure.Some? { return; }
      }
      NowReady(b.numbers, spec, plan, trace, prepared);
      return None;
    }

    /** After the checks: prepare a parent, pin it, and look at the result. */
    method Carry(spec: Spec, plan: Plan) returns (r: Result<Outcome, Failure>)
      requires Honest(b, trace) && prepared == [] && Saved(trace) == NOTHING_SAVED
      requires plan.slot < |plan.publishedPins| == |plan.draftPins|
      requires KeptArePinned(spec.children, plan.parent.pins)
      modifies this
      ensures Honest(b, trace) && old(trace) <= trace && Saved(trace).foreign == []
      ensures spec.resumeParentId != "" ==> Saved(trace) == NOTHING_SAVED.(patches := Saved(trace).patches)
      ensures SentOnce(b.numbers, spec, plan, trace, prepared)
      ensures r.Ok? ==> r.value.Finished? && SeenFinished(b.numbers, spec, plan, trace, prepared, r.value)
      ensures r.Err? ==> Reported(spec, trace, prepared, r.error)
      ensures r.Err? && r.error.Partial? && Saved(trace).patches != [] ==>
                (r.error.uncertain <==> !ShowsPublished(trace, spec, plan.live))
      ensures Carried(b, spec, plan, trace, prepared, r)
    {
      hide Honest, Saved, Ready, KeptArePinned, Ids, Reported, SentOnce, SeenFinished, ShowsPublished, Unprepared,
           Carried;
      var failure := Prepare(spec, plan);
      if failure.Some? {
        NothingSent(b.numbers, spec, plan, trace, prepared);
        NotPrepared(b, spec, plan, trace, prepared, failure.value);
        return Err(failure.value);
      }
      ghost var ready := trace;
      hide Pinning;
      PinningIsSound(b, spec, plan, prepared, ready);
      r := PinParent(spec, plan);
      PinnedFrom(b, spec, plan, prepared, ready, trace, r);
    }

    /** All reads and checks, and the exits before anything is prepared. */
    method Check(spec: Spec, dryRun: bool) returns (end: Option<Result<Outcome, Failure>>, plan: Option<Plan>)
      requires trace == [] && prepared == []
      modifies this`trace
      ensures Honest(b, trace) && Saved(trace) == NOTHING_SAVED
      ensures (plan, trace) == Planned(b, spec)
      ensures Early(b, spec, dryRun) == if end.Some? then Some((end.value, trace)) else None
      ensures end.Some? ==> end.value in {Err(Refused), Ok(OnServer), Ok(DryRun)}
      ensures end.None? ==>
                && !dryRun && plan.Some? && plan.value.slot < |plan.value.publishedPins| == |plan.value.draftPins|
                && KeptArePinned(spec.children, plan.value.parent.pins) && Approved(b, spec, plan.value, trace)
    {
      assert Honest(b, []);
      PlannedIsApproved(b, spec);
      hide Honest, Saved, Approved, KeptArePinned, PermitsAll, HostPlan, ParentPlan;
      plan := ReadHost(spec);
      if plan.None? { return Some(Err(Refused)), None; }
      plan := ReadParent(spec, plan.value);
      if plan.None? { return Some(Err(Refused)), None; }
      if spec.resumeParentId == "" {
        var allowed := MayCreateAll(spec, plan.value.publishedPins[plan.value.slot].bundle);
        if !allowed { return Some(Err(Refused)), plan; }
        if plan.value.onServer { return Some(Ok(OnServer)), plan; }
      }
      if dryRun { return Some(Ok(DryRun)), plan; }
      return None, plan;
    }

    method DraftNestedComponents(spec: Spec, dryRun: bool)
      returns (r: Result<Outcome, Failure>, ghost plan: Option<Plan>)
      requires trace == [] && prepared == []
      modifies this
      ensures Honest(b, trace) && Saved(trace).foreign == []
      // Every check comes before the first saving request, and the plan is what the answers then said.
      ensures plan == Planned(b, spec).0
      ensures Saved(trace) != NOTHING_SAVED ==> !dryRun && plan.Some? && ApprovedFirst(b, spec, plan.value, trace)
      ensures r == Ok(DryRun) || r == Ok(OnServer) ==> Saved(trace) == NOTHING_SAVED
      ensures spec.resumeParentId != "" ==> Saved(trace) == NOTHING_SAVED.(patches := Saved(trace).patches)
      // The host's draft is sent at most once, for a parent that is ready, after a preflight that agreed.
      ensures Saved(trace).patches != [] ==> plan.Some? && SentOnce(b.numbers, spec, plan.value, trace, prepared)
      // A finished run was seen to have kept the published revision and to have changed one slot of the draft.
      ensures r.Ok? && r.value.Finished? ==>
                && plan.Some? && ApprovedFirst(b, spec, plan.value, trace)
                && SeenFinished(b.numbers, spec, plan.value, trace, prepared, r.value)
      // No paragraph the backend reported is lost from the error, unless the draft endpoint is missing.
      ensures r.Err? ==> Reported(spec, trace, prepared, r.error)
      // After the draft request, an error is certain exactly when the re-read showed the published revision as it was.
      ensures r.Err? && r.error.Partial? && Saved(trace).patches != [] ==>
                && plan.Some? && (r.error.uncertain <==> !ShowsPublished(trace, spec, plan.value.live))
      // Each exit has its cause in the answers.
      ensures Ends(b, spec, dryRun, trace, prepared, r)
    {
      hide Honest, Saved, Approved, ApprovedFirst, SentOnce, SeenFinished, KeptArePinned, ShowsPublished, Carried;
      hide Planned, Early;
      var end, checked := Check(spec, dryRun);
      plan := checked;
      if end.Some? { return end.value, plan; }
      ghost var t := trace;
      r := Carry(spec, checked.value);
      ApprovedThen(b, spec, checked.value, t, trace);
    }
  }
}
