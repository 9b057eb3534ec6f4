/**
 * Drafting a change inside a component: new paragraphs are made for the changed children and for their parent, and
 * the host's draft is pointed at the new parent. Paragraphs the published host pins are never written to. All
 * requests go through `Backend`, which may answer each of them in any way.
 */
module NestedDraft {
  import opened Common
  import CanonicalDraft

  /** Attribute values and references that are carried along and never looked into. */
  type Content = string

  // ----- ids and pins -----

  function LowerChar(c: char): char {
    if 'A' <= c <= 'Z' then (c as int - 'A' as int + 'a' as int) as char else c
  }

  function Lower(s: string): (t: string)
    ensures |t| == |s|
  {
    if s == "" then "" else [LowerChar(s[0])] + Lower(s[1..])
  }

  predicate SameId(a: string, b: string) { Lower(a) == Lower(b) }

  /** A reference to a paragraph. An empty text is an absent one. */
  datatype Pin = Pin(bundle: string, library: bool, id: string, revision: string)

  function PinKey(pin: Pin): string { Lower(pin.id) + "#" + pin.revision }

  /** A revision never holds a '#', so the last one in a key is the separator. */
  lemma PinKeyIsFaithful(p: Pin, q: Pin)
    requires '#' !in p.revision && '#' !in q.revision
    ensures PinKey(p) == PinKey(q) <==> SameId(p.id, q.id) && p.revision == q.revision
  {
    if PinKey(p) == PinKey(q) {
      SplitAtLast(Lower(p.id), p.revision, Lower(q.id), q.revision, '#');
    }
  }

  function Keys(pins: seq<Pin>): (keys: seq<string>)
    ensures |keys| == |pins| && forall i :: 0 <= i < |pins| ==> keys[i] == PinKey(pins[i])
  {
    if pins == [] then [] else [PinKey(pins[0])] + Keys(pins[1..])
  }

  predicate Reusable(pin: Pin) { pin.library || pin.bundle == "from_library" }

  function FirstWith(pins: seq<Pin>, id: string): (at: int)
    ensures -1 <= at < |pins|
    ensures at >= 0 ==> SameId(pins[at].id, id) && forall j :: 0 <= j < at ==> !SameId(pins[j].id, id)
    ensures at < 0 ==> forall j :: 0 <= j < |pins| ==> !SameId(pins[j].id, id)
  {
    if pins == [] then -1
    else if SameId(pins[0].id, id) then 0
    else
      var rest := FirstWith(pins[1..], id);
      if rest < 0 then -1 else rest + 1
  }

  /** How a revision text reads as a number: the text of that number, empty when it is not finite. */
  datatype Numbers = Numbers(text: string -> string, positive: string -> bool)

  function Embed(n: Numbers, bundle: string, id: string, revision: string): Pin {
    Pin(bundle, false, id, if revision == "" then "" else n.text(revision))
  }

  function PinRef(n: Numbers, pin: Pin): Pin { Embed(n, pin.bundle, pin.id, pin.revision) }

  function PinRefs(n: Numbers, pins: seq<Pin>): (refs: seq<Pin>)
    ensures |refs| == |pins| && forall i :: 0 <= i < |pins| ==> refs[i] == PinRef(n, pins[i])
  {
    if pins == [] then [] else [PinRef(n, pins[0])] + PinRefs(n, pins[1..])
  }

  predicate AllPinned(n: Numbers, pins: seq<Pin>) { forall pin <- pins :: n.positive(pin.revision) }

  // ----- the request -----

  datatype Op = Keep | Replace | Insert

  datatype Wording = Wording(langcode: string, attributes: Content)

  datatype Child = Child(op: Op, id: string, bundle: string, attributes: Content, translations: seq<Wording>)

  datatype Spec = Spec(
    id: string,
    parentId: string,
    resumeParentId: string,
    liveRevisionId: string,
    children: seq<Child>)

  predicate Supplies(child: Child, lang: string) { exists w <- child.translations :: w.langcode == lang }

  predicate Pinned(pins: seq<Pin>, id: string) { exists pin <- pins :: pin.id != "" && SameId(pin.id, id) }

  /** A kept or replaced child is one of the component's, and a new paragraph has every language the component has. */
  predicate ChildFits(child: Child, childPins: seq<Pin>, langs: seq<string>) {
    && (child.op != Insert ==> Pinned(childPins, child.id))
    && (child.op != Keep ==> forall lang <- langs :: Supplies(child, lang))
  }

  predicate ChildrenFit(children: seq<Child>, childPins: seq<Pin>, langs: seq<string>) {
    && (forall child <- children :: ChildFits(child, childPins, langs))
    && forall i, j :: 0 <= i < j < |children| && children[i].op != Insert && children[j].op != Insert ==>
         !SameId(children[i].id, children[j].id)
  }

  method AssertChildren(children: seq<Child>, childPins: seq<Pin>, langs: seq<string>) returns (ok: bool)
    ensures ok <==> ChildrenFit(children, childPins, langs)
  {
    hide Lower;
    var seen: set<string> := {};
    for i := 0 to |children|
      invariant ChildrenFit(children[..i], childPins, langs)
      invariant forall key :: key in seen <==>
                  exists j :: 0 <= j < i && children[j].op != Insert && Lower(children[j].id) == key
    {
      var child := children[i];
      if !ChildFits(child, childPins, langs) { return false; }
      if child.op != Insert {
        if Lower(child.id) in seen { return false; }
        seen := seen + {Lower(child.id)};
      }
    }
    ok := true;
    assert children[..|children|] == children;
  }

  // ----- the backend -----

  datatype HostEntity = HostEntity(vid: Option<string>, pins: seq<Pin>)

  /** `copied` and `references` are the attributes and the references a new parent takes over. */
  datatype Paragraph = Paragraph(
    id: string, bundle: string, langcode: string, revision: string,
    copied: Content, references: Content, pins: seq<Pin>)

  datatype Read<T> = Found(value: T) | NotReturned | ReadFailed

  datatype Inventory = Inventory(
    live: string,
    working: Option<CanonicalDraft.WorkingRow>,
    opensDrafts: bool,
    replacesNested: bool,
    langcode: string)

  datatype LangsReply = Langs(rows: seq<string>) | NoLangsEndpoint | LangsFailed

  /** Which revision is asked for: the default one, the working copy, or one by its id. */
  datatype Version = Default | WorkingCopy | ById(vid: string)

  /** `version` is the text of the requested version, empty for the default revision. */
  datatype Address = Address(bundle: string, id: string, version: string, langcode: string)

  datatype References = NoReferences | ParentReferences(copied: Content, children: seq<Pin>)

  datatype Creation = Creation(bundle: string, langcode: string, attributes: Content, references: References)

  datatype Made = Made(id: string, langcode: string, revision: string)

  datatype CreateReply = Created(made: Made) | CreateFailed(orphan: Made)

  datatype Translation =
    Translation(bundle: string, id: string, revision: string, langcode: string, attributes: Content)

  datatype HostPatch = HostPatch(pins: seq<Pin>, live: string, working: string, langcode: string)

  datatype PreflightReply =
    | Checked(confirmed: bool, live: string, working: string, opens: bool)
    | PreflightFailed(missingEndpoint: bool)

  datatype DraftReply = Drafted(id: string) | DraftFailed(missingEndpoint: bool)

  /** A request together with its answer. */
  datatype Exchange =
    | InventoryRead(inventory: Read<Inventory>)
    | LangsRead(bundle: string, id: string, revision: string, langs: LangsReply)
    | HostRead(version: Version, host: Read<HostEntity>)
    | ParagraphRead(address: Address, paragraph: Read<Paragraph>)
    | Create(creation: Creation, reply: CreateReply)
    | Translate(translation: Translation, ok: bool)
    | Preflight(patch: HostPatch, checked: PreflightReply)
    | HostDraft(patch: HostPatch, drafted: DraftReply)

  type Trace = seq<Exchange>

  /** The answers as functions of all that happened before, and the policy that may refuse a paragraph type. */
  datatype Backend = Backend(
    numbers: Numbers,
    inventory: Trace -> Read<Inventory>,
    langs: (Trace, string, string, string) -> LangsReply,
    host: (Trace, Version) -> Read<HostEntity>,
    paragraph: (Trace, Address) -> Read<Paragraph>,
    create: (Trace, Creation) -> CreateReply,
    translate: (Trace, Translation) -> bool,
    preflight: (Trace, HostPatch) -> PreflightReply,
    draft: (Trace, HostPatch) -> DraftReply,
    mayCreate: (Trace, string) -> bool)

  predicate Answers(b: Backend, t: Trace, e: Exchange) {
    match e
    case InventoryRead(r) => r == b.inventory(t)
    case LangsRead(bundle, id, revision, r) => r == b.langs(t, bundle, id, revision)
    case HostRead(version, r) => r == b.host(t, version)
    case ParagraphRead(address, r) => r == b.paragraph(t, address)
    case Create(creation, r) => r == b.create(t, creation)
    case Translate(translation, r) => r == b.translate(t, translation)
    case Preflight(patch, r) => r == b.preflight(t, patch)
    case HostDraft(patch, r) => r == b.draft(t, patch)
  }

  /** Every answer in the trace is the one the backend gives at that point. */
  predicate Honest(b: Backend, t: Trace) {
    t == [] || (Honest(b, t[..|t| - 1]) && Answers(b, t[..|t| - 1], t[|t| - 1]))
  }

  // ----- what a trace saved -----

  /** `reported` are the ids of new paragraphs; `foreign` are the translations of a paragraph not reported before. */
  datatype Ledger = Ledger(
    creations: seq<Creation>,
    reported: seq<string>,
    translations: seq<Translation>,
    foreign: seq<Translation>,
    patches: seq<HostPatch>)

  const NOTHING_SAVED := Ledger([], [], [], [], [])

  function NonEmpty(id: string): seq<string> { if id == "" then [] else [id] }

  /** The id a create reports, also when it fails after the paragraph was made. */
  function MadeId(reply: CreateReply): string {
    match reply
    case Created(made) => made.id
    case CreateFailed(orphan) => orphan.id
  }

  function Post(l: Ledger, e: Exchange): Ledger {
    match e
    case Create(creation, reply) =>
      l.(creations := l.creations + [creation],
         reported := l.reported + NonEmpty(MadeId(reply)))
    case Translate(t, _) =>
      l.(translations := l.translations + [t],
         foreign := if t.id == "" || t.id in l.reported then l.foreign else l.foreign + [t])
    case HostDraft(patch, _) => l.(patches := l.patches + [patch])
    case _ => l
  }

  function Saved(t: Trace): Ledger {
    if t == [] then NOTHING_SAVED else Post(Saved(t[..|t| - 1]), t[|t| - 1])
  }

  lemma Appended(b: Backend, t: Trace, e: Exchange)
    ensures Saved(t + [e]) == Post(Saved(t), e)
    ensures Honest(b, t) && Answers(b, t, e) ==> Honest(b, t + [e])
  {
    assert (t + [e])[..|t|] == t;
  }

  // ----- what is sent -----

  datatype Row = Row(id: string, bundle: string, isParent: bool, revision: string)

  /** The ids the prepared list names. */
  function Ids(rows: seq<Row>): seq<string> {
    if rows == [] then [] else Ids(rows[..|rows| - 1]) + NonEmpty(rows[|rows| - 1].id)
  }

  lemma IdsAppend(rows: seq<Row>, row: Row)
    ensures Ids(rows + [row]) == Ids(rows) + NonEmpty(row.id)
  {
    assert (rows + [row])[..|rows|] == rows;
  }

  function NewChildren(children: seq<Child>): seq<Child> {
    if children == [] then []
    else
      var last := children[|children| - 1];
      NewChildren(children[..|children| - 1]) + if last.op == Keep then [] else [last]
  }

  /** One creation for every child that is not kept, in their order. */
  function ChildCreations(children: seq<Child>, lang: string): seq<Creation> {
    if children == [] then []
    else
      var last := children[|children| - 1];
      ChildCreations(children[..|children| - 1], lang)
      + if last.op == Keep then [] else [Creation(last.bundle, lang, last.attributes, NoReferences)]
  }

  /** The drafts of one new paragraph in its other languages. */
  function Translations(bundle: string, id: string, revision: string, wordings: seq<Wording>, lang: string)
    : seq<Translation>
  {
    if wordings == [] then []
    else
      var last := wordings[|wordings| - 1];
      Translations(bundle, id, revision, wordings[..|wordings| - 1], lang)
      + if last.langcode == lang then [] else [Translation(bundle, id, revision, last.langcode, last.attributes)]
  }

  /** `rows` are the new paragraphs, one for every child that is not kept. */
  function ChildTranslations(children: seq<Child>, rows: seq<Row>, lang: string): seq<Translation>
    requires |rows| == |NewChildren(children)|
  {
    if children == [] then []
    else
      var front, last := children[..|children| - 1], children[|children| - 1];
      if last.op == Keep then ChildTranslations(front, rows, lang)
      else
        var row := rows[|rows| - 1];
        ChildTranslations(front, rows[..|rows| - 1], lang)
        + Translations(last.bundle, row.id, row.revision, last.translations, lang)
  }

  /** The child list of the new parent: kept children as they are pinned, the others by their new paragraphs. */
  function ChildRefs(n: Numbers, children: seq<Child>, childPins: seq<Pin>, rows: seq<Row>): (refs: seq<Pin>)
    requires |rows| == |NewChildren(children)|
    requires forall child <- children :: child.op == Keep ==> FirstWith(childPins, child.id) >= 0
    ensures |refs| == |children|
  {
    if children == [] then []
    else
      var front, last := children[..|children| - 1], children[|children| - 1];
      if last.op == Keep then
        ChildRefs(n, front, childPins, rows) + [PinRef(n, childPins[FirstWith(childPins, last.id)])]
      else
        var row := rows[|rows| - 1];
        ChildRefs(n, front, childPins, rows[..|rows| - 1]) + [Embed(n, last.bundle, row.id, row.revision)]
  }

  /** The component list of the draft: the old one, with the new parent in the chosen slot. */
  function NextPins(n: Numbers, draftPins: seq<Pin>, slot: nat, parent: Row): seq<Pin>
    requires slot < |draftPins|
  {
    PinRefs(n, draftPins)[slot := Embed(n, parent.bundle, parent.id, parent.revision)]
  }

  /** The languages of the listed translations, without the default one, each once. */
  function RequiredLangs(rows: seq<string>, lang: string): (langs: seq<string>)
    ensures forall l :: l in langs <==> l in rows && l != "" && l != lang
  {
    if rows == [] then []
    else
      var langs, last := RequiredLangs(rows[..|rows| - 1], lang), rows[|rows| - 1];
      if last == "" || last == lang || last in langs then langs else langs + [last]
  }

  // ----- what the checks establish -----

  function VersionText(revision: string): string { if revision == "" then "" else "id:" + revision }

  datatype Plan = Plan(
    live: string,
    working: string,
    langcode: string,
    onServer: bool,
    publishedPins: seq<Pin>,
    draftPins: seq<Pin>,
    slot: nat,
    parent: Paragraph,
    langs: seq<string>)

  ghost predicate PinsAgree(n: Numbers, spec: Spec, plan: Plan) {
    && plan.slot < |plan.publishedPins| == |plan.draftPins|
    && FirstWith(plan.publishedPins, spec.parentId) == plan.slot
    && (|| FirstWith(plan.draftPins, spec.parentId) == plan.slot
        || (FirstWith(plan.draftPins, spec.parentId) < 0 && spec.resumeParentId != ""
            && FirstWith(plan.draftPins, spec.resumeParentId) == plan.slot))
    && !Reusable(plan.publishedPins[plan.slot])
    && plan.publishedPins[plan.slot].bundle != ""
    && AllPinned(n, plan.publishedPins) && AllPinned(n, plan.draftPins)
  }

  ghost predicate ParentAgrees(n: Numbers, spec: Spec, plan: Plan) {
    && SameId(plan.parent.id, spec.parentId)
    && (forall pin <- plan.parent.pins :: !Reusable(pin))
    && AllPinned(n, plan.parent.pins)
    && (spec.resumeParentId != "" ==>
          !Pinned(plan.publishedPins, spec.resumeParentId) && !Pinned(plan.parent.pins, spec.resumeParentId))
    && ChildrenFit(spec.children, plan.parent.pins, plan.langs)
  }

  /** The working revision that counts: none if it is the live one. */
  function WorkingOf(i: Inventory): string {
    if i.working.Some? && i.working.value.vid != i.live then i.working.value.vid else ""
  }

  /** The inventory is valid and current, and the draft can be opened or continued in the default language. */
  predicate InventoryFits(spec: Spec, i: Inventory) {
    && CanonicalDraft.ValidVid(i.live)
    && (i.working.Some? ==> CanonicalDraft.ValidVid(i.working.value.vid))
    && i.langcode != ""
    && (spec.liveRevisionId == "" || spec.liveRevisionId == i.live)
    && (WorkingOf(i) == "" ==> i.opensDrafts)
    && (WorkingOf(i) != "" ==>
          CanonicalDraft.IsDraftRow(CanonicalDraft.FindRow(i.working.value.translations, i.langcode)))
  }

  predicate PublishedFits(n: Numbers, spec: Spec, pins: seq<Pin>) {
    var slot := FirstWith(pins, spec.parentId);
    slot >= 0 && !Reusable(pins[slot]) && AllPinned(n, pins)
  }

  predicate DraftFits(n: Numbers, pins: seq<Pin>, draftPins: seq<Pin>) {
    AllPinned(n, draftPins) && |draftPins| == |pins|
  }

  function DraftSlot(spec: Spec, draftPins: seq<Pin>): int {
    var slot := FirstWith(draftPins, spec.parentId);
    if slot < 0 && spec.resumeParentId != "" then FirstWith(draftPins, spec.resumeParentId) else slot
  }

  const NO_PARAGRAPH := Paragraph("", "", "", "", "", "", [])

  /** What is known of the host; the component and its languages are read later. */
  function PlanOf(spec: Spec, i: Inventory, pins: seq<Pin>, draftPins: seq<Pin>): (r: Option<Plan>)
    ensures r.Some? ==> r.value.slot < |r.value.publishedPins|
  {
    var slot := FirstWith(pins, spec.parentId);
    if slot < 0 || DraftSlot(spec, draftPins) != slot || pins[slot].bundle == "" then None
    else Some(Plan(i.live, WorkingOf(i), i.langcode, i.replacesNested, pins, draftPins, slot, NO_PARAGRAPH, []))
  }

  /** The inventory, the published revision and the working copy, read in that order, and what follows from them. */
  function HostPlan(b: Backend, spec: Spec, t: Trace): (r: (Option<Plan>, Trace))
    ensures r.0.Some? ==> r.0.value.slot < |r.0.value.publishedPins|
  {
    var listed := b.inventory(t);
    var t1 := t + [InventoryRead(listed)];
    if !listed.Found? || !InventoryFits(spec, listed.value) then (None, t1)
    else
      var working := WorkingOf(listed.value);
      var published := b.host(t1, Default);
      var t2 := t1 + [HostRead(Default, published)];
      if !published.Found? || published.value.vid != Some(listed.value.live)
         || !PublishedFits(b.numbers, spec, published.value.pins) then (None, t2)
      else if working == "" then
        (PlanOf(spec, listed.value, published.value.pins, published.value.pins), t2)
      else
        var draft := b.host(t2, ById(working));
        var t3 := t2 + [HostRead(ById(working), draft)];
        if !draft.Found? || draft.value.vid != Some(working)
           || !DraftFits(b.numbers, published.value.pins, draft.value.pins) then (None, t3)
        else (PlanOf(spec, listed.value, published.value.pins, draft.value.pins), t3)
  }

  function ParentAddress(spec: Spec, plan: Plan): Address
    requires plan.slot < |plan.publishedPins|
  {
    var pin := plan.publishedPins[plan.slot];
    Address(pin.bundle, spec.parentId, VersionText(pin.revision), "")
  }

  predicate ParentFits(n: Numbers, spec: Spec, plan: Plan, parent: Paragraph) {
    && SameId(parent.id, spec.parentId)
    && (forall pin <- parent.pins :: !Reusable(pin))
    && AllPinned(n, parent.pins)
    && (spec.resumeParentId != "" ==>
          !Pinned(plan.publishedPins, spec.resumeParentId) && !Pinned(parent.pins, spec.resumeParentId))
  }

  /** The languages an answer requires; a missing endpoint requires none, and a failure tells nothing. */
  function LangsSay(reply: LangsReply, lang: string): Option<seq<string>> {
    match reply
    case Langs(rows) => Some(RequiredLangs(rows, lang))
    case NoLangsEndpoint => Some([])
    case LangsFailed => None
  }

  /** The published component and its languages, read in that order, and whether the children fit them. */
  function ParentPlan(b: Backend, spec: Spec, host: Plan, t: Trace): (r: (Option<Plan>, Trace))
    requires host.slot < |host.publishedPins|
    ensures r.0.Some? ==> r.0.value.slot < |r.0.value.publishedPins|
  {
    var pin := host.publishedPins[host.slot];
    var read := b.paragraph(t, ParentAddress(spec, host));
    var t1 := t + [ParagraphRead(ParentAddress(spec, host), read)];
    if !read.Found? || !ParentFits(b.numbers, spec, host, read.value) then (None, t1)
    else
      var reply := b.langs(t1, pin.bundle, spec.parentId, pin.revision);
      var t2 := t1 + [LangsRead(pin.bundle, spec.parentId, pin.revision, reply)];
      var langs := LangsSay(reply, host.langcode);
      if langs.None? || !ChildrenFit(spec.children, read.value.pins, langs.value) then (None, t2)
      else (Some(host.(parent := read.value, langs := langs.value)), t2)
  }

  /** All that is read before anything is saved, and the plan if every check holds. */
  function Planned(b: Backend, spec: Spec): (r: (Option<Plan>, Trace))
    ensures r.0.Some? ==> r.0.value.slot < |r.0.value.publishedPins|
  {
    var (host, t) := HostPlan(b, spec, []);
    if host.None? then (None, t) else ParentPlan(b, spec, host.value, t)
  }

  predicate PermitsAll(b: Backend, spec: Spec, bundle: string, t: Trace) {
    && (forall child <- spec.children :: child.op != Keep ==> b.mayCreate(t, child.bundle))
    && b.mayCreate(t, bundle)
  }

  /** The plan is what the answers said. */
  ghost predicate HostWitnessed(spec: Spec, plan: Plan, t: Trace) {
    && (exists i: Inventory ::
          && InventoryRead(Found(i)) in t && InventoryFits(spec, i)
          && plan.live == i.live && plan.working == WorkingOf(i)
          && plan.langcode == i.langcode && plan.onServer == i.replacesNested)
    && HostRead(Default, Found(HostEntity(Some(plan.live), plan.publishedPins))) in t
    && (if plan.working == "" then plan.draftPins == plan.publishedPins
        else HostRead(ById(plan.working), Found(HostEntity(Some(plan.working), plan.draftPins))) in t)
  }

  ghost predicate ParentWitnessed(spec: Spec, plan: Plan, t: Trace) {
    && plan.slot < |plan.publishedPins|
    && var pin := plan.publishedPins[plan.slot];
    && ParagraphRead(ParentAddress(spec, plan), Found(plan.parent)) in t
    && exists reply: LangsReply ::
         LangsRead(pin.bundle, spec.parentId, pin.revision, reply) in t
         && LangsSay(reply, plan.langcode) == Some(plan.langs)
  }

  /** All that is checked before the first saving request, with the policy asked about every type to be created. */
  ghost predicate Approved(b: Backend, spec: Spec, plan: Plan, t: Trace) {
    && PinsAgree(b.numbers, spec, plan) && ParentAgrees(b.numbers, spec, plan)
    && HostWitnessed(spec, plan, t) && ParentWitnessed(spec, plan, t)
    && (spec.resumeParentId == "" ==>
          !plan.onServer && PermitsAll(b, spec, plan.publishedPins[plan.slot].bundle, t))
  }

  /** All checks were made, and held, when nothing had been saved yet. */
  ghost predicate ApprovedFirst(b: Backend, spec: Spec, plan: Plan, t: Trace) {
    exists k: nat :: k <= |t| && Saved(t[..k]) == NOTHING_SAVED && Approved(b, spec, plan, t[..k])
  }

  lemma ApprovedThen(b: Backend, spec: Spec, plan: Plan, t: Trace, t': Trace)
    requires Saved(t) == NOTHING_SAVED && Approved(b, spec, plan, t) && t <= t'
    ensures ApprovedFirst(b, spec, plan, t')
  {
    hide Saved, Approved;
    assert t'[..|t|] == t;
  }

  lemma ReadSavesNothing(t: Trace, e: Exchange)
    requires !e.Create? && !e.Translate? && !e.HostDraft?
    ensures Saved(t + [e]) == Saved(t)
  {
    assert (t + [e])[..|t|] == t;
  }

  lemma PlanOfAgrees(n: Numbers, spec: Spec, i: Inventory, pins: seq<Pin>, draftPins: seq<Pin>)
    requires PublishedFits(n, spec, pins) && DraftFits(n, pins, draftPins)
    ensures var r := PlanOf(spec, i, pins, draftPins);
      r.Some? ==> PinsAgree(n, spec, r.value)
  {
    hide SameId, AllPinned, Reusable;
  }

  lemma PlanOfIsWitnessed(
    spec: Spec, i: Inventory, pins: seq<Pin>, draftPins: seq<Pin>, t: Trace)
    requires InventoryRead(Found(i)) in t && InventoryFits(spec, i)
    requires HostRead(Default, Found(HostEntity(Some(i.live), pins))) in t
    requires if WorkingOf(i) == "" then draftPins == pins
             else HostRead(ById(WorkingOf(i)), Found(HostEntity(Some(WorkingOf(i)), draftPins))) in t
    ensures var r := PlanOf(spec, i, pins, draftPins);
      r.Some? ==> HostWitnessed(spec, r.value, t)
  {
    hide InventoryFits, WorkingOf, FirstWith, DraftSlot;
  }

  lemma HostPlanIsWitnessed(b: Backend, spec: Spec, t: Trace)
    ensures var (r, t') := HostPlan(b, spec, t);
      && t <= t' && Saved(t') == Saved(t)
      && (r.Some? ==> PinsAgree(b.numbers, spec, r.value) && HostWitnessed(spec, r.value, t'))
  {
    hide Saved, PinsAgree, InventoryFits, WorkingOf, PlanOf, HostWitnessed, FirstWith;
    var listed := b.inventory(t);
    var t1 := t + [InventoryRead(listed)];
    ReadSavesNothing(t, InventoryRead(listed));
    var published := b.host(t1, Default);
    var t2 := t1 + [HostRead(Default, published)];
    ReadSavesNothing(t1, HostRead(Default, published));
    if listed.Found? && published.Found? && PublishedFits(b.numbers, spec, published.value.pins) {
      var pins, working := published.value.pins, WorkingOf(listed.value);
      assert InventoryRead(Found(listed.value)) in t2;
      PlanOfAgrees(b.numbers, spec, listed.value, pins, pins);
      if InventoryFits(spec, listed.value) && published.value.vid == Some(listed.value.live) && working == "" {
        PlanOfIsWitnessed(spec, listed.value, pins, pins, t2);
      }
      var draft := b.host(t2, ById(working));
      ReadSavesNothing(t2, HostRead(ById(working), draft));
      if draft.Found? && DraftFits(b.numbers, pins, draft.value.pins) {
        PlanOfAgrees(b.numbers, spec, listed.value, pins, draft.value.pins);
        if InventoryFits(spec, listed.value) && published.value.vid == Some(listed.value.live)
           && working != "" && draft.value.vid == Some(working) {
          PlanOfIsWitnessed(spec, listed.value, pins, draft.value.pins, t2 + [HostRead(ById(working), draft)]);
        }
      }
    }
  }

  lemma HostWitnessedStays(spec: Spec, plan: Plan, t: Trace, t': Trace)
    requires HostWitnessed(spec, plan, t) && t <= t'
    ensures HostWitnessed(spec, plan, t')
  {
    hide InventoryFits, WorkingOf;
    var i: Inventory :|
      && InventoryRead(Found(i)) in t && InventoryFits(spec, i)
      && plan.live == i.live && plan.working == WorkingOf(i)
      && plan.langcode == i.langcode && plan.onServer == i.replacesNested;
    assert InventoryRead(Found(i)) in t';
  }

  lemma ParentPlanIsWitnessed(b: Backend, spec: Spec, host: Plan, t: Trace)
    requires PinsAgree(b.numbers, spec, host) && HostWitnessed(spec, host, t)
    ensures var (r, t') := ParentPlan(b, spec, host, t);
      && t <= t' && Saved(t') == Saved(t)
      && (r.Some? ==>
            && PinsAgree(b.numbers, spec, r.value) && ParentAgrees(b.numbers, spec, r.value)
            && HostWitnessed(spec, r.value, t') && ParentWitnessed(spec, r.value, t'))
  {
    hide Saved, SameId, AllPinned, Reusable, ChildrenFit, Pinned, HostWitnessed, RequiredLangs;
    var pin := host.publishedPins[host.slot];
    var read := b.paragraph(t, ParentAddress(spec, host));
    var t1 := t + [ParagraphRead(ParentAddress(spec, host), read)];
    ReadSavesNothing(t, ParagraphRead(ParentAddress(spec, host), read));
    HostWitnessedStays(spec, host, t, t1);
    var reply := b.langs(t1, pin.bundle, spec.parentId, pin.revision);
    var e := LangsRead(pin.bundle, spec.parentId, pin.revision, reply);
    ReadSavesNothing(t1, e);
    assert e in t1 + [e];
    HostWitnessedStays(spec, host, t1, t1 + [e]);
    var (r, t') := ParentPlan(b, spec, host, t);
    if r.Some? { SameHost(spec, host, r.value, t'); }
  }

  /** The component and its languages are no part of what was seen of the host. */
  lemma SameHost(spec: Spec, host: Plan, plan: Plan, t: Trace)
    requires plan == host.(parent := plan.parent, langs := plan.langs) && HostWitnessed(spec, host, t)
    ensures HostWitnessed(spec, plan, t)
  {
    hide InventoryFits, WorkingOf;
  }

  lemma PlannedIsApproved(b: Backend, spec: Spec)
    ensures var (p, t) := Planned(b, spec);
      && Saved(t) == NOTHING_SAVED
      && (p.Some? ==>
            && p.value.slot < |p.value.publishedPins| == |p.value.draftPins|
            && KeptArePinned(spec.children, p.value.parent.pins)
            && ((spec.resumeParentId == "" ==>
                   !p.value.onServer && PermitsAll(b, spec, p.value.publishedPins[p.value.slot].bundle, t))
                ==> Approved(b, spec, p.value, t)))
  {
    hide HostPlan, ParentPlan, HostWitnessed, ParentWitnessed, ChildrenFit, KeptArePinned, PermitsAll;
    var (host, t) := HostPlan(b, spec, []);
    HostPlanIsWitnessed(b, spec, []);
    if host.Some? {
      ParentPlanIsWitnessed(b, spec, host.value, t);
      var p := ParentPlan(b, spec, host.value, t).0;
      if p.Some? { FittingKeptArePinned(spec.children, p.value.parent.pins, p.value.langs); }
    }
  }

  /** The exits before anything is prepared. */
  function Early(b: Backend, spec: Spec, dryRun: bool): Option<(Result<Outcome, Failure>, Trace)> {
    var (p, t) := Planned(b, spec);
    if p.None? then Some((Err(Refused), t))
    else if spec.resumeParentId == "" && !PermitsAll(b, spec, p.value.publishedPins[p.value.slot].bundle, t) then
      Some((Err(Refused), t))
    else if spec.resumeParentId == "" && p.value.onServer then Some((Ok(OnServer), t))
    else if dryRun then Some((Ok(DryRun), t))
    else None
  }

  // ----- how a run ends -----

  datatype Outcome =
    | DryRun
    | OnServer
    | Finished(parentId: string, opens: bool, prepared: seq<Row>, live: string, working: string)

  datatype Failure =
    | Refused
    | Rethrown
    | MissingEndpoint
    | Partial(prepared: seq<Row>, uncertain: bool)

  /** The last two exchanges read the host again, and its published revision still pins the component. */
  predicate ShowsPublished(t: Trace, spec: Spec, live: string) {
    && |t| >= 2
    && t[|t| - 2].HostRead? && t[|t| - 2].version == Default && t[|t| - 2].host.Found?
    && t[|t| - 1].HostRead? && t[|t| - 1].version == WorkingCopy && t[|t| - 1].host.Found?
    && t[|t| - 2].host.value.vid == Some(live)
    && Pinned(t[|t| - 2].host.value.pins, spec.parentId)
  }

  /** The working copy just read is a forward revision with exactly the expected pins. */
  predicate ShowsDraft(t: Trace, live: string, expected: seq<Pin>, working: string) {
    && |t| >= 1
    && t[|t| - 1].HostRead? && t[|t| - 1].version == WorkingCopy && t[|t| - 1].host.Found?
    && t[|t| - 1].host.value.vid == Some(working)
    && working != live
    && Keys(t[|t| - 1].host.value.pins) == Keys(expected)
  }

  datatype Confirmation = Landed(working: string) | NotLanded(uncertain: bool)

  predicate Confirms(checked: PreflightReply, patch: HostPatch) {
    && checked.Checked? && checked.confirmed
    && checked.live == patch.live && checked.working == patch.working
    && (patch.working == "" ==> checked.opens)
  }

  ghost predicate Preflighted(t: Trace, patch: HostPatch) {
    exists checked: PreflightReply :: Preflight(patch, checked) in t && Confirms(checked, patch)
  }

  predicate KeptArePinned(children: seq<Child>, childPins: seq<Pin>) {
    forall child <- children :: child.op == Keep ==> FirstWith(childPins, child.id) >= 0
  }

  lemma KeptIsPinned(children: seq<Child>, childPins: seq<Pin>, i: nat)
    requires KeptArePinned(children, childPins) && i < |children| && children[i].op == Keep
    ensures FirstWith(childPins, children[i].id) >= 0
  {}

  lemma FittingKeptArePinned(children: seq<Child>, childPins: seq<Pin>, langs: seq<string>)
    requires ChildrenFit(children, childPins, langs)
    ensures KeptArePinned(children, childPins)
  {
    hide SameId;
    forall child <- children | child.op == Keep
      ensures FirstWith(childPins, child.id) >= 0
    {
      assert ChildFits(child, childPins, langs);
    }
  }

  /** The children are made and listed as they should be; `l0` and `l` are what was saved before and after. */
  ghost predicate ChildrenMade(
    n: Numbers, children: seq<Child>, childPins: seq<Pin>, lang: string,
    l0: Ledger, l: Ledger, rows: seq<Row>, refs: seq<Pin>)
  {
    && KeptArePinned(children, childPins)
    && |rows| == |NewChildren(children)| && (forall row <- rows :: !row.isParent)
    && refs == ChildRefs(n, children, childPins, rows)
    && l.creations == l0.creations + ChildCreations(children, lang)
    && l.translations == l0.translations + ChildTranslations(children, rows, lang)
  }

  lemma NoChildrenMade(n: Numbers, childPins: seq<Pin>, lang: string, l: Ledger)
    ensures ChildrenMade(n, [], childPins, lang, l, l, [], [])
  {}

  lemma OneMoreKept(
    n: Numbers, children: seq<Child>, child: Child, childPins: seq<Pin>, lang: string,
    l0: Ledger, l: Ledger, rows: seq<Row>, refs: seq<Pin>)
    requires ChildrenMade(n, children, childPins, lang, l0, l, rows, refs)
    requires child.op == Keep && FirstWith(childPins, child.id) >= 0
    ensures ChildrenMade(n, children + [child], childPins, lang, l0, l, rows,
                         refs + [PinRef(n, childPins[FirstWith(childPins, child.id)])])
  {
    hide PinRef, SameId, Embed;
    assert (children + [child])[..|children|] == children;
  }

  lemma OneMoreSent(children: seq<Child>, child: Child, rows: seq<Row>, row: Row, lang: string)
    requires child.op != Keep && |rows| == |NewChildren(children)|
    ensures |NewChildren(children + [child])| == |rows + [row]|
    ensures ChildCreations(children + [child], lang)
         == ChildCreations(children, lang) + [Creation(child.bundle, lang, child.attributes, NoReferences)]
    ensures ChildTranslations(children + [child], rows + [row], lang)
         == ChildTranslations(children, rows, lang)
            + Translations(child.bundle, row.id, row.revision, child.translations, lang)
  {
    hide Translations;
    assert (children + [child])[..|children|] == children;
    assert (rows + [row])[..|rows|] == rows;
  }

  lemma OneMoreRef(
    n: Numbers, children: seq<Child>, child: Child, childPins: seq<Pin>, rows: seq<Row>, row: Row)
    requires child.op != Keep && |rows| == |NewChildren(children)| && KeptArePinned(children, childPins)
    requires |NewChildren(children + [child])| == |rows + [row]| && KeptArePinned(children + [child], childPins)
    ensures ChildRefs(n, children + [child], childPins, rows + [row])
         == ChildRefs(n, children, childPins, rows) + [Embed(n, child.bundle, row.id, row.revision)]
  {
    hide PinRef, SameId, Embed;
    assert (children + [child])[..|children|] == children;
    assert (rows + [row])[..|rows|] == rows;
  }

  lemma OneMoreMade(
    n: Numbers, children: seq<Child>, child: Child, childPins: seq<Pin>, lang: string,
    l0: Ledger, l: Ledger, rows: seq<Row>, refs: seq<Pin>, l': Ledger, row: Row)
    requires ChildrenMade(n, children, childPins, lang, l0, l, rows, refs)
    requires child.op != Keep && row.bundle == child.bundle && !row.isParent
    requires l'.creations == l.creations + [Creation(child.bundle, lang, child.attributes, NoReferences)]
    requires l'.translations
          == l.translations + Translations(row.bundle, row.id, row.revision, child.translations, lang)
    ensures ChildrenMade(n, children + [child], childPins, lang, l0, l', rows + [row],
                         refs + [Embed(n, row.bundle, row.id, row.revision)])
  {
    hide PinRef, SameId, Embed, Translations, FirstWith;
    OneMoreSent(children, child, rows, row, lang);
    assert KeptArePinned(children + [child], childPins);
    OneMoreRef(n, children, child, childPins, rows, row);
    hide NewChildren, ChildCreations, ChildTranslations, ChildRefs, KeptArePinned;
  }

  /** The k-th translation is that of the new parent in a language, and copies what was read of the component in it. */
  ghost predicate Copied(t: Trace, source: Paragraph, row: Row, lang: string, k: nat) {
    exists e: Paragraph ::
      && ParagraphRead(Address(row.bundle, source.id, ParagraphVersion(source), lang), Found(e)) in t
      && k < |Saved(t).translations|
      && Saved(t).translations[k] == Translation(row.bundle, row.id, row.revision, lang, e.copied)
  }

  /** The other languages of the new parent are the translations from the k-th on, in their order. */
  ghost predicate AllCopied(t: Trace, source: Paragraph, row: Row, langs: seq<string>, k: nat) {
    forall i :: 0 <= i < |langs| ==> Copied(t, source, row, langs[i], k + i)
  }

  lemma NowCopied(t: Trace, source: Paragraph, row: Row, lang: string, k: nat, e: Paragraph)
    requires ParagraphRead(Address(row.bundle, source.id, ParagraphVersion(source), lang), Found(e)) in t
    requires k < |Saved(t).translations|
    requires Saved(t).translations[k] == Translation(row.bundle, row.id, row.revision, lang, e.copied)
    ensures Copied(t, source, row, lang, k)
  {
    hide Saved;
  }

  lemma CopiedStays(t: Trace, t': Trace, source: Paragraph, row: Row, lang: string, k: nat)
    requires Copied(t, source, row, lang, k)
    requires t <= t' && Saved(t).translations <= Saved(t').translations
    ensures Copied(t', source, row, lang, k)
  {
    hide Saved;
    var e: Paragraph :|
      && ParagraphRead(Address(row.bundle, source.id, ParagraphVersion(source), lang), Found(e)) in t
      && k < |Saved(t).translations|
      && Saved(t).translations[k] == Translation(row.bundle, row.id, row.revision, lang, e.copied);
    assert ParagraphRead(Address(row.bundle, source.id, ParagraphVersion(source), lang), Found(e)) in t';
  }

  lemma AllCopiedStay(t: Trace, t': Trace, source: Paragraph, row: Row, langs: seq<string>, k: nat)
    requires AllCopied(t, source, row, langs, k)
    requires t <= t' && Saved(t).translations <= Saved(t').translations
    ensures AllCopied(t', source, row, langs, k)
  {
    hide Saved, Copied;
    forall i | 0 <= i < |langs| ensures Copied(t', source, row, langs[i], k + i) {
      CopiedStays(t, t', source, row, langs[i], k + i);
    }
  }

  lemma NoneCopied(t: Trace, source: Paragraph, row: Row, k: nat)
    ensures AllCopied(t, source, row, [], k)
  {}

  lemma OneMoreCopied(t: Trace, source: Paragraph, row: Row, langs: seq<string>, lang: string, k: nat)
    requires AllCopied(t, source, row, langs, k) && Copied(t, source, row, lang, k + |langs|)
    ensures AllCopied(t, source, row, langs + [lang], k)
  {
    hide Saved, Copied;
  }

  function ParagraphVersion(p: Paragraph): string { if p.revision == "" then "id:null" else "id:" + p.revision }

  lemma PreflightedStays(t: Trace, t': Trace, patch: HostPatch)
    requires Preflighted(t, patch) && t <= t'
    ensures Preflighted(t', patch)
  {
    var checked: PreflightReply :| Preflight(patch, checked) in t && Confirms(checked, patch);
    assert Preflight(patch, checked) in t';
  }

  // ----- resuming -----

  /** A pin of the resumed parent is the one the request asks for in that place. */
  predicate PinMatches(n: Numbers, child: Child, pin: Pin, childPins: seq<Pin>) {
    && n.positive(pin.revision)
    && if child.op == Keep
       then && SameId(pin.id, child.id)
            && var at := FirstWith(childPins, child.id);
               at >= 0 && pin.revision == childPins[at].revision
       else !Pinned(childPins, pin.id) && !SameId(pin.id, child.id)
  }

  /** A new child was read at its pin, and holds what the request asks for. */
  ghost predicate ReadBack(t: Trace, child: Child, pin: Pin) {
    exists e: Paragraph ::
      && ParagraphRead(Address(child.bundle, pin.id, VersionText(pin.revision), ""), Found(e)) in t
      && SameId(e.id, pin.id) && e.bundle == child.bundle && e.revision == pin.revision && e.copied == child.attributes
  }

  ghost predicate WordingReadBack(t: Trace, child: Child, pin: Pin, w: Wording) {
    exists e: Paragraph ::
      && ParagraphRead(Address(child.bundle, pin.id, VersionText(pin.revision), w.langcode), Found(e)) in t
      && e.langcode == w.langcode && e.copied == w.attributes
  }

  lemma WordingReadBackStays(t: Trace, t': Trace, child: Child, pin: Pin, w: Wording)
    requires WordingReadBack(t, child, pin, w) && t <= t'
    ensures WordingReadBack(t', child, pin, w)
  {
    var e: Paragraph :|
      && ParagraphRead(Address(child.bundle, pin.id, VersionText(pin.revision), w.langcode), Found(e)) in t
      && e.langcode == w.langcode && e.copied == w.attributes;
    assert ParagraphRead(Address(child.bundle, pin.id, VersionText(pin.revision), w.langcode), Found(e)) in t';
  }

  ghost predicate ChildMatches(n: Numbers, t: Trace, child: Child, pin: Pin, childPins: seq<Pin>, lang: string) {
    && PinMatches(n, child, pin, childPins)
    && (child.op != Keep ==>
          ReadBack(t, child, pin)
          && forall w <- child.translations :: w.langcode != lang ==> WordingReadBack(t, child, pin, w))
  }

  lemma ChildMatchesStays(n: Numbers, t: Trace, t': Trace, child: Child, pin: Pin, childPins: seq<Pin>, lang: string)
    requires ChildMatches(n, t, child, pin, childPins, lang) && t <= t'
    ensures ChildMatches(n, t', child, pin, childPins, lang)
  {
    hide PinMatches, SameId, WordingReadBack;
    if child.op != Keep {
      forall w <- child.translations | w.langcode != lang
        ensures WordingReadBack(t', child, pin, w)
      {
        WordingReadBackStays(t, t', child, pin, w);
      }
      var e: Paragraph :|
        && ParagraphRead(Address(child.bundle, pin.id, VersionText(pin.revision), ""), Found(e)) in t
        && SameId(e.id, pin.id) && e.bundle == child.bundle && e.revision == pin.revision
        && e.copied == child.attributes;
    }
  }

  lemma WordingIsReadBack(t: Trace, child: Child, pin: Pin, w: Wording, e: Paragraph)
    requires ParagraphRead(Address(child.bundle, pin.id, VersionText(pin.revision), w.langcode), Found(e)) in t
    requires e.langcode == w.langcode && e.copied == w.attributes
    ensures WordingReadBack(t, child, pin, w)
  {}

  lemma OneMoreWording(n: Numbers, t: Trace, child: Child, i: nat, pin: Pin, childPins: seq<Pin>, lang: string)
    requires i < |child.translations| && child.op != Keep
    requires ChildMatches(n, t, child.(translations := child.translations[..i]), pin, childPins, lang)
    requires child.translations[i].langcode != lang ==> WordingReadBack(t, child, pin, child.translations[i])
    ensures ChildMatches(n, t, child.(translations := child.translations[..i + 1]), pin, childPins, lang)
  {
    hide SameId;
    assert child.translations[..i + 1] == child.translations[..i] + [child.translations[i]];
  }

  /** The resumed parent is the one this request would have made. */
  ghost predicate Resumes(n: Numbers, spec: Spec, plan: Plan, t: Trace, resumed: Paragraph) {
    && resumed.revision != "" && SameId(resumed.id, spec.resumeParentId)
    && resumed.copied == plan.parent.copied && resumed.references == plan.parent.references
    && |resumed.pins| == |spec.children|
    && (forall i :: 0 <= i < |spec.children| ==>
          ChildMatches(n, t, spec.children[i], resumed.pins[i], plan.parent.pins, plan.langcode))
    && forall lang <- plan.langs :: LanguageMatches(t, plan.parent, resumed, lang)
  }

  function SourceAddress(parent: Paragraph, lang: string): Address {
    Address(parent.bundle, parent.id, VersionText(parent.revision), lang)
  }

  function CopyAddress(parent: Paragraph, resumed: Paragraph, lang: string): Address {
    Address(
      if resumed.bundle != "" then resumed.bundle else parent.bundle,
      resumed.id, VersionText(resumed.revision), lang)
  }

  ghost predicate LanguageMatches(t: Trace, parent: Paragraph, resumed: Paragraph, lang: string) {
    exists source: Paragraph, copy: Paragraph ::
      && ParagraphRead(SourceAddress(parent, lang), Found(source)) in t
      && ParagraphRead(CopyAddress(parent, resumed, lang), Found(copy)) in t
      && source.langcode == copy.langcode == lang && source.copied == copy.copied
  }

  lemma LanguageMatchesStays(t: Trace, t': Trace, parent: Paragraph, resumed: Paragraph, lang: string)
    requires LanguageMatches(t, parent, resumed, lang) && t <= t'
    ensures LanguageMatches(t', parent, resumed, lang)
  {
    var source: Paragraph, copy: Paragraph :|
      && ParagraphRead(SourceAddress(parent, lang), Found(source)) in t
      && ParagraphRead(CopyAddress(parent, resumed, lang), Found(copy)) in t
      && source.langcode == copy.langcode == lang && source.copied == copy.copied;
    assert ParagraphRead(SourceAddress(parent, lang), Found(source)) in t';
    assert ParagraphRead(CopyAddress(parent, resumed, lang), Found(copy)) in t';
  }

  function ResumeAddress(spec: Spec, plan: Plan): Address
    requires plan.slot < |plan.publishedPins|
  {
    Address(plan.publishedPins[plan.slot].bundle, spec.resumeParentId, "", "")
  }

  /** The prepared list is the resumed parent alone, read, checked and not changed. */
  ghost predicate Resumed(n: Numbers, spec: Spec, plan: Plan, t: Trace, rows: seq<Row>) {
    plan.slot < |plan.publishedPins| &&
    exists resumed: Paragraph ::
      && ParagraphRead(ResumeAddress(spec, plan), Found(resumed)) in t
      && rows == [Row(spec.resumeParentId, plan.publishedPins[plan.slot].bundle, true, resumed.revision)]
      && Resumes(n, spec, plan, t, resumed)
  }

  lemma ResumedStays(n: Numbers, spec: Spec, plan: Plan, t: Trace, t': Trace, rows: seq<Row>)
    requires Resumed(n, spec, plan, t, rows) && t <= t'
    ensures Resumed(n, spec, plan, t', rows)
  {
    hide SameId, ChildMatches, LanguageMatches;
    var resumed: Paragraph :|
      && ParagraphRead(ResumeAddress(spec, plan), Found(resumed)) in t
      && rows == [Row(spec.resumeParentId, plan.publishedPins[plan.slot].bundle, true, resumed.revision)]
      && Resumes(n, spec, plan, t, resumed);
    forall i | 0 <= i < |spec.children|
      ensures ChildMatches(n, t', spec.children[i], resumed.pins[i], plan.parent.pins, plan.langcode)
    {
      ChildMatchesStays(n, t, t', spec.children[i], resumed.pins[i], plan.parent.pins, plan.langcode);
    }
    forall lang <- plan.langs
      ensures LanguageMatches(t', plan.parent, resumed, lang)
    {
      LanguageMatchesStays(t, t', plan.parent, resumed, lang);
    }
    assert Resumes(n, spec, plan, t', resumed);
  }

  // ----- why a resumed parent is refused -----

  /** The last read of a new child, or of one of its translations, is not what the request asks for. */
  ghost predicate ChildReadDiffers(t: Trace, child: Child, pin: Pin, lang: string) {
    t != [] && t[|t| - 1].ParagraphRead? &&
    var (address, read) := (t[|t| - 1].address, t[|t| - 1].paragraph);
    || (&& address == Address(child.bundle, pin.id, VersionText(pin.revision), "")
        && !(&& read.Found? && SameId(read.value.id, pin.id) && read.value.bundle == child.bundle
             && read.value.revision == pin.revision && read.value.copied == child.attributes))
    || (exists w <- child.translations ::
          && w.langcode != lang && address == Address(child.bundle, pin.id, VersionText(pin.revision), w.langcode)
          && !(read.Found? && read.value.langcode == w.langcode && read.value.copied == w.attributes))
  }

  /** The component or the resumed parent was not found in a language, or the two differ in it. */
  ghost predicate LanguageReadDiffers(t: Trace, parent: Paragraph, resumed: Paragraph, lang: string) {
    t != [] && t[|t| - 1].ParagraphRead? &&
    var (address, read) := (t[|t| - 1].address, t[|t| - 1].paragraph);
    || (!read.Found? && (address == SourceAddress(parent, lang) || address == CopyAddress(parent, resumed, lang)))
    || (&& read.Found? && address == CopyAddress(parent, resumed, lang)
        && exists source: Paragraph ::
             && ParagraphRead(SourceAddress(parent, lang), Found(source)) in t
             && !(source.langcode == read.value.langcode == lang && source.copied == read.value.copied))
  }

  ghost predicate ResumeDiffers(n: Numbers, spec: Spec, plan: Plan, t: Trace, resumed: Paragraph) {
    || resumed.revision == "" || !SameId(resumed.id, spec.resumeParentId)
    || resumed.copied != plan.parent.copied || resumed.references != plan.parent.references
    || |resumed.pins| != |spec.children|
    || (exists i :: 0 <= i < |spec.children| &&
          ChildDiffers(n, t, spec.children[i], resumed.pins[i], plan.parent.pins, plan.langcode))
    || (exists lang <- plan.langs :: LanguageReadDiffers(t, plan.parent, resumed, lang))
  }

  ghost predicate ChildDiffers(n: Numbers, t: Trace, child: Child, pin: Pin, childPins: seq<Pin>, lang: string) {
    !PinMatches(n, child, pin, childPins) || (child.op != Keep && ChildReadDiffers(t, child, pin, lang))
  }

  /** The resumed parent could not be read, or is not the one this request would have made. */
  ghost predicate ResumeFails(n: Numbers, spec: Spec, plan: Plan, t: Trace) {
    plan.slot < |plan.publishedPins| &&
    var address := ResumeAddress(spec, plan);
    || (t != [] && t[|t| - 1].ParagraphRead? && t[|t| - 1].address == address && !t[|t| - 1].paragraph.Found?)
    || exists resumed: Paragraph ::
         ParagraphRead(address, Found(resumed)) in t && ResumeDiffers(n, spec, plan, t, resumed)
  }

  // ----- building -----

  /** The new children and the new parent were made as asked, and the parent carries the component's languages. */
  ghost predicate Built(n: Numbers, spec: Spec, plan: Plan, t: Trace, rows: seq<Row>) {
    && plan.slot < |plan.publishedPins|
    && rows != []
    && var parent, children, bundle := rows[|rows| - 1], rows[..|rows| - 1], plan.publishedPins[plan.slot].bundle;
    && KeptArePinned(spec.children, plan.parent.pins)
    && |children| == |NewChildren(spec.children)| && (forall row <- children :: !row.isParent)
    && parent.isParent && parent.bundle == bundle
    && Saved(t).creations == ChildCreations(spec.children, plan.langcode)
         + [Creation(bundle, plan.langcode, plan.parent.copied, ParentReferences(
              plan.parent.references, ChildRefs(n, spec.children, plan.parent.pins, children)))]
    && Saved(t).reported == Ids(rows)
    && var own := ChildTranslations(spec.children, children, plan.langcode);
    && own <= Saved(t).translations && |Saved(t).translations| == |own| + |plan.langs|
    && AllCopied(t, plan.parent, parent, plan.langs, |own|)
  }

  /** As `Built`, before the parent gets its other languages. */
  ghost predicate Assembled(n: Numbers, spec: Spec, plan: Plan, l: Ledger, rows: seq<Row>) {
    && plan.slot < |plan.publishedPins|
    && rows != []
    && var parent, children, bundle := rows[|rows| - 1], rows[..|rows| - 1], plan.publishedPins[plan.slot].bundle;
    && KeptArePinned(spec.children, plan.parent.pins)
    && |children| == |NewChildren(spec.children)| && (forall row <- children :: !row.isParent)
    && parent.isParent && parent.bundle == bundle
    && l.creations == ChildCreations(spec.children, plan.langcode)
         + [Creation(bundle, plan.langcode, plan.parent.copied, ParentReferences(
              plan.parent.references, ChildRefs(n, spec.children, plan.parent.pins, children)))]
    && l.translations == ChildTranslations(spec.children, children, plan.langcode)
  }

  lemma Assembling(
    n: Numbers, spec: Spec, plan: Plan, rows: seq<Row>, l: Ledger, refs: seq<Pin>, row: Row, l': Ledger)
    requires plan.slot < |plan.publishedPins|
    requires ChildrenMade(n, spec.children, plan.parent.pins, plan.langcode, NOTHING_SAVED, l, rows, refs)
    requires row.isParent && row.bundle == plan.publishedPins[plan.slot].bundle
    requires l'.creations == l.creations + [Creation(
               row.bundle, plan.langcode, plan.parent.copied, ParentReferences(plan.parent.references, refs))]
    requires l'.translations == l.translations
    ensures Assembled(n, spec, plan, l', rows + [row])
  {
    hide SameId, ChildRefs, ChildTranslations, ChildCreations, NewChildren;
    assert (rows + [row])[..|rows|] == rows;
  }

  lemma AssembledIsBuilt(n: Numbers, spec: Spec, plan: Plan, l: Ledger, rows: seq<Row>, t: Trace)
    requires Assembled(n, spec, plan, l, rows)
    requires Saved(t) == l.(translations := Saved(t).translations)
    requires l.translations <= Saved(t).translations
    requires |Saved(t).translations| == |l.translations| + |plan.langs|
    requires Saved(t).reported == Ids(rows)
    requires AllCopied(t, plan.parent, rows[|rows| - 1], plan.langs, |l.translations|)
    ensures Built(n, spec, plan, t, rows)
  {
    hide Saved, SameId, AllCopied, ChildRefs, ChildTranslations, ChildCreations, NewChildren, Ids, KeptArePinned;
  }

  lemma BuiltStays(n: Numbers, spec: Spec, plan: Plan, t: Trace, t': Trace, rows: seq<Row>)
    requires Built(n, spec, plan, t, rows) && t <= t'
    requires Saved(t') == Saved(t).(patches := Saved(t').patches)
    ensures Built(n, spec, plan, t', rows)
  {
    hide Saved, SameId, AllCopied, ChildRefs, ChildTranslations, ChildCreations, NewChildren, KeptArePinned, Ids;
    var own := ChildTranslations(spec.children, rows[..|rows| - 1], plan.langcode);
    AllCopiedStay(t, t', plan.parent, rows[|rows| - 1], plan.langs, |own|);
  }

  /** A new parent is ready to be pinned. */
  ghost predicate Ready(n: Numbers, spec: Spec, plan: Plan, t: Trace, rows: seq<Row>) {
    && plan.slot < |plan.publishedPins| == |plan.draftPins|
    && if spec.resumeParentId != "" then Resumed(n, spec, plan, t, rows) else Built(n, spec, plan, t, rows)
  }

  lemma ReadyStays(n: Numbers, spec: Spec, plan: Plan, t: Trace, t': Trace, rows: seq<Row>)
    requires Ready(n, spec, plan, t, rows) && t <= t'
    requires Saved(t') == Saved(t).(patches := Saved(t').patches)
    ensures Ready(n, spec, plan, t', rows)
  {
    hide Resumed, Built, Saved;
    if spec.resumeParentId != "" {
      ResumedStays(n, spec, plan, t, t', rows);
    } else {
      BuiltStays(n, spec, plan, t, t', rows);
    }
  }

  lemma {:induction false} IdsContain(rows: seq<Row>, row: Row)
    requires row in rows && row.id != ""
    ensures row.id in Ids(rows)
  {
    if row != rows[|rows| - 1] {
      IdsContain(rows[..|rows| - 1], row);
    }
  }

  lemma NowReady(n: Numbers, spec: Spec, plan: Plan, t: Trace, rows: seq<Row>)
    requires plan.slot < |plan.publishedPins| == |plan.draftPins|
    requires if spec.resumeParentId != "" then Resumed(n, spec, plan, t, rows) else Built(n, spec, plan, t, rows)
    ensures Ready(n, spec, plan, t, rows) && rows != []
  {}

  /** The one draft request of the host, for the parent at the end of the prepared list. */
  function PatchFor(n: Numbers, plan: Plan, rows: seq<Row>): HostPatch
    requires plan.slot < |plan.draftPins| && rows != []
  {
    HostPatch(NextPins(n, plan.draftPins, plan.slot, rows[|rows| - 1]), plan.live, plan.working, plan.langcode)
  }

  /** The draft already pins the resumed parent, so that there is nothing to send. */
  predicate AlreadyPinned(plan: Plan, row: Row)
    requires plan.slot < |plan.draftPins|
  {
    plan.working != "" && SameId(plan.draftPins[plan.slot].id, row.id)
  }

  /** The host's draft was sent at most once, for a parent that was ready, after a preflight that agreed. */
  ghost predicate SentOnce(n: Numbers, spec: Spec, plan: Plan, t: Trace, rows: seq<Row>) {
    Saved(t).patches != [] ==>
      && Ready(n, spec, plan, t, rows)
      && Saved(t).patches == [PatchFor(n, plan, rows)] && Preflighted(t, PatchFor(n, plan, rows))
      && !AlreadyPinned(plan, rows[|rows| - 1])
  }

  /** The re-read showed the published revision as it was, and the working copy with only the chosen slot replaced. */
  ghost predicate SeenFinished(n: Numbers, spec: Spec, plan: Plan, t: Trace, rows: seq<Row>, o: Outcome) {
    && o.Finished? && Ready(n, spec, plan, t, rows)
    && ShowsPublished(t, spec, plan.live)
    && ShowsDraft(t, plan.live, PatchFor(n, plan, rows).pins, o.working)
    && o == Finished(rows[|rows| - 1].id, plan.working == "", rows, plan.live, o.working)
  }

  /** The last answer said that the site has no draft endpoint. */
  predicate EndpointMissed(t: Trace) {
    t != [] &&
    match t[|t| - 1]
    case Preflight(_, checked) => checked == PreflightFailed(true)
    case HostDraft(_, drafted) => drafted == DraftFailed(true)
    case _ => false
  }

  /** The paragraph types that are to be created for the children. */
  function NewTypes(children: seq<Child>): set<string> { set child <- children | child.op != Keep :: child.bundle }

  function Types(spec: Spec, plan: Plan): set<string>
    requires plan.slot < |plan.publishedPins|
  {
    NewTypes(spec.children) + {plan.publishedPins[plan.slot].bundle}
  }

  /** The policy refuses one of the paragraph types now. */
  predicate PolicyRefuses(b: Backend, t: Trace, types: set<string>) {
    exists bundle <- types :: !b.mayCreate(t, bundle)
  }

  /** The last exchange failed in a way that stops the preparation. */
  predicate Faulty(e: Exchange) {
    match e
    case Create(creation, CreateFailed(_)) => true
    case Create(creation, Created(made)) => made.langcode != creation.langcode || made.revision == ""
    case Translate(_, ok) => !ok
    case ParagraphRead(_, paragraph) => !paragraph.Found?
    case _ => false
  }

  predicate Faulted(b: Backend, t: Trace, types: set<string>) {
    PolicyRefuses(b, t, types) || (t != [] && Faulty(t[|t| - 1]))
  }

  /** A create failed and reported no paragraph, or the policy refused one. */
  predicate CreateRefused(b: Backend, t: Trace, types: set<string>) {
    PolicyRefuses(b, t, types)
    || (t != [] && t[|t| - 1].Create? && t[|t| - 1].reply.CreateFailed? && t[|t| - 1].reply.orphan.id == "")
  }

  lemma FaultedForAll(b: Backend, t: Trace, types: set<string>)
    ensures Faulted(b, t, {}) ==> Faulted(b, t, types)
  {}

  /** What goes wrong with one child's type goes wrong with the types of all. */
  lemma FewerTypes(b: Backend, t: Trace, children: seq<Child>, i: nat)
    requires i < |children|
    ensures Faulted(b, t, NewTypes([children[i]])) ==> Faulted(b, t, NewTypes(children))
    ensures CreateRefused(b, t, NewTypes([children[i]])) ==> CreateRefused(b, t, NewTypes(children))
  {
    assert NewTypes([children[i]]) <= NewTypes(children);
  }

  /** What an error tells: nothing was saved, nothing new is known, or the new paragraphs by their ids. */
  ghost predicate Reported(spec: Spec, t: Trace, rows: seq<Row>, f: Failure) {
    match f
    case Refused => Saved(t) == NOTHING_SAVED
    case Rethrown => Saved(t).reported == [] && Saved(t).patches == []
    case Partial(named, _) =>
      && named == rows
      && Ids(rows) == if spec.resumeParentId != "" then [spec.resumeParentId] else Saved(t).reported
    case MissingEndpoint => EndpointMissed(t) && (spec.resumeParentId == "" ==> Saved(t).reported == Ids(rows))
  }

  // ----- pinning the new parent -----

  /** Preflight and draft request as far as the answers let them, and whether the endpoint is missing. */
  function PinSent(b: Backend, plan: Plan, rows: seq<Row>, t: Trace): (Trace, bool)
    requires plan.slot < |plan.draftPins| && rows != []
  {
    var patch := PatchFor(b.numbers, plan, rows);
    if AlreadyPinned(plan, rows[|rows| - 1]) then (t, false)
    else
      var checked := b.preflight(t, patch);
      var t1 := t + [Preflight(patch, checked)];
      if checked.PreflightFailed? && checked.missingEndpoint then (t1, true)
      else if !Confirms(checked, patch) then (t1, false)
      else
        var drafted := b.draft(t1, patch);
        (t1 + [HostDraft(patch, drafted)], drafted.DraftFailed? && drafted.missingEndpoint)
  }

  /** The published revision is read again, and the working copy unless that read failed. */
  function ReRead(b: Backend, t: Trace): Trace {
    var published := b.host(t, Default);
    var t1 := t + [HostRead(Default, published)];
    if published.ReadFailed? then t1 else t1 + [HostRead(WorkingCopy, b.host(t1, WorkingCopy))]
  }

  /** What the re-read decides, however the draft request was answered. */
  function Verdict(spec: Spec, plan: Plan, rows: seq<Row>, next: seq<Pin>, t: Trace): Result<Outcome, Failure>
    requires rows != []
  {
    if !ShowsPublished(t, spec, plan.live) then Err(Partial(rows, true))
    else
      var working := t[|t| - 1].host.value.vid;
      if working.None? || !ShowsDraft(t, plan.live, next, working.value) then Err(Partial(rows, false))
      else Ok(Finished(rows[|rows| - 1].id, plan.working == "", rows, plan.live, working.value))
  }

  /** From a prepared parent to the exit. */
  function Pinning(b: Backend, spec: Spec, plan: Plan, rows: seq<Row>, t: Trace): (Result<Outcome, Failure>, Trace)
    requires plan.slot < |plan.draftPins| && rows != []
  {
    var (t1, missing) := PinSent(b, plan, rows, t);
    if missing then (Err(MissingEndpoint), t1)
    else (Verdict(spec, plan, rows, PatchFor(b.numbers, plan, rows).pins, ReRead(b, t1)), ReRead(b, t1))
  }

  lemma PinSentSaves(b: Backend, plan: Plan, rows: seq<Row>, t: Trace)
    requires plan.slot < |plan.draftPins| && rows != []
    ensures var (t1, missing) := PinSent(b, plan, rows, t);
      var patch := PatchFor(b.numbers, plan, rows);
      && t <= t1 && (missing ==> EndpointMissed(t1))
      && Saved(t1) == Saved(t).(patches := Saved(t1).patches)
      && (|| Saved(t1).patches == Saved(t).patches
          || (&& Saved(t1).patches == Saved(t).patches + [patch]
              && Preflighted(t1, patch) && !AlreadyPinned(plan, rows[|rows| - 1])))
  {
    hide Saved, AlreadyPinned, PatchFor;
    var patch := PatchFor(b.numbers, plan, rows);
    var checked := b.preflight(t, patch);
    var t1 := t + [Preflight(patch, checked)];
    ReadSavesNothing(t, Preflight(patch, checked));
    var drafted := b.draft(t1, patch);
    Appended(b, t1, HostDraft(patch, drafted));
    assert Preflight(patch, checked) in t1 + [HostDraft(patch, drafted)];
  }

  lemma ReReadSavesNothing(b: Backend, t: Trace)
    ensures t <= ReRead(b, t) && Saved(ReRead(b, t)) == Saved(t)
  {
    hide Saved;
    var published := b.host(t, Default);
    var t1 := t + [HostRead(Default, published)];
    ReadSavesNothing(t, HostRead(Default, published));
    ReadSavesNothing(t1, HostRead(WorkingCopy, b.host(t1, WorkingCopy)));
  }

  lemma PinningIsSound(b: Backend, spec: Spec, plan: Plan, rows: seq<Row>, t: Trace)
    requires plan.slot < |plan.draftPins| && rows != [] && Ready(b.numbers, spec, plan, t, rows)
    requires Saved(t).patches == []
    requires Ids(rows) == if spec.resumeParentId != "" then [spec.resumeParentId] else Saved(t).reported
    ensures var (r, t') := Pinning(b, spec, plan, rows, t);
      && t <= t' && Saved(t') == Saved(t).(patches := Saved(t').patches)
      && SentOnce(b.numbers, spec, plan, t', rows)
      && (r.Ok? ==> r.value.Finished? && SeenFinished(b.numbers, spec, plan, t', rows, r.value))
      && (r.Err? ==> Reported(spec, t', rows, r.error))
      && (r.Err? && r.error.Partial? ==> (r.error.uncertain <==> !ShowsPublished(t', spec, plan.live)))
  {
    hide Saved, Ready, ShowsPublished, ShowsDraft, PatchFor, Preflighted, Ids, PinSent, ReRead, EndpointMissed,
         AlreadyPinned;
    var (t1, missing) := PinSent(b, plan, rows, t);
    PinSentSaves(b, plan, rows, t);
    ReadyStays(b.numbers, spec, plan, t, t1, rows);
    ReReadSavesNothing(b, t1);
    ReadyStays(b.numbers, spec, plan, t1, ReRead(b, t1), rows);
    if Preflighted(t1, PatchFor(b.numbers, plan, rows)) {
      PreflightedStays(t1, ReRead(b, t1), PatchFor(b.numbers, plan, rows));
    }
  }

  lemma NothingSent(n: Numbers, spec: Spec, plan: Plan, t: Trace, rows: seq<Row>)
    requires Saved(t).patches == []
    ensures SentOnce(n, spec, plan, t, rows)
  {}

  lemma NothingToTranslate(row: Row, lang: string)
    ensures Translations(row.bundle, row.id, row.revision, [], lang) == []
  {}

  // ----- every exit has its cause -----

  /** Why nothing was prepared. */
  ghost predicate Unprepared(b: Backend, spec: Spec, plan: Plan, t: Trace, f: Failure) {
    if spec.resumeParentId != "" then f == Refused && ResumeFails(b.numbers, spec, plan, t)
    else
      && plan.slot < |plan.publishedPins|
      && Faulted(b, t, Types(spec, plan)) && (f.Partial? || (f.Rethrown? && CreateRefused(b, t, Types(spec, plan))))
  }

  /** A run after the checks ends in the preparation, or with what pinning the prepared parent gives. */
  ghost predicate Carried(b: Backend, spec: Spec, plan: Plan, t: Trace, rows: seq<Row>, r: Result<Outcome, Failure>) {
    || (r.Err? && Unprepared(b, spec, plan, t, r.error))
    || exists k: nat ::
         && k <= |t| && Ready(b.numbers, spec, plan, t[..k], rows) && rows != []
         && Saved(t[..k]).patches == [] && (r, t) == Pinning(b, spec, plan, rows, t[..k])
  }

  lemma NotPrepared(b: Backend, spec: Spec, plan: Plan, t: Trace, rows: seq<Row>, f: Failure)
    requires Unprepared(b, spec, plan, t, f)
    ensures Carried(b, spec, plan, t, rows, Err(f))
  {
    hide Unprepared;
  }

  lemma PinnedFrom(
    b: Backend, spec: Spec, plan: Plan, rows: seq<Row>, t: Trace, t': Trace, r: Result<Outcome, Failure>)
    requires rows != [] && plan.slot < |plan.draftPins| && Ready(b.numbers, spec, plan, t, rows)
    requires Saved(t).patches == [] && t <= t' && (r, t') == Pinning(b, spec, plan, rows, t)
    ensures Carried(b, spec, plan, t', rows, r)
  {
    hide Saved, Ready, Pinning, Unprepared;
    assert t'[..|t|] == t;
  }

  /** The whole run: it ends early as the answers say, or goes on from exactly those answers. */
  ghost predicate Ends(
    b: Backend, spec: Spec, dryRun: bool, t: Trace, rows: seq<Row>, r: Result<Outcome, Failure>) {
    match Early(b, spec, dryRun)
    case Some(end) => (r, t) == end
    case None =>
      var (plan, t0) := Planned(b, spec);
      plan.Some? && t0 <= t && Carried(b, spec, plan.value, t, rows, r)
  }

  // ----- a site that answers as documented -----

  /** What is stored: the revisions, the component and its languages. */
  datatype Site = Site(inventory: Inventory, published: seq<Pin>, draft: seq<Pin>, parent: Paragraph, langs: LangsReply)

  /** The request makes new paragraphs through the client, and fits what the site stores. */
  ghost predicate SiteFits(n: Numbers, spec: Spec, w: Site) {
    spec.resumeParentId == "" && !w.inventory.replacesNested && SiteHolds(n, spec, w)
  }

  /** What the site stores is as the request takes it to be. */
  ghost predicate SiteHolds(n: Numbers, spec: Spec, w: Site) {
    var i := w.inventory;
    && spec.parentId != "" && InventoryFits(spec, i)
    && PublishedFits(n, spec, w.published) && DraftFits(n, w.published, w.draft)
    && (WorkingOf(i) == "" ==> w.draft == w.published)
    && var plan := PlanOf(spec, i, w.published, w.draft);
    && plan.Some? && ParentFits(n, spec, plan.value, w.parent)
    && var langs := LangsSay(w.langs, i.langcode);
    langs.Some? && ChildrenFit(spec.children, w.parent.pins, langs.value)
  }

  /** Revisions do not change by themselves. */
  ghost predicate ReadsAreStable(b: Backend, spec: Spec, w: Site) {
    var i, plan := w.inventory, PlanOf(spec, w.inventory, w.published, w.draft);
    && plan.Some?
    && (forall t :: b.inventory(t) == Found(i))
    && (forall t :: b.host(t, Default) == Found(HostEntity(Some(i.live), w.published)))
    && (forall t :: b.host(t, ById(WorkingOf(i))) == Found(HostEntity(Some(WorkingOf(i)), w.draft)))
    && (forall t :: b.paragraph(t, ParentAddress(spec, plan.value)) == Found(w.parent))
    && var pin := plan.value.publishedPins[plan.value.slot];
    forall t :: b.langs(t, pin.bundle, spec.parentId, pin.revision) == w.langs
  }

  /** Paragraphs are there in every language that is asked for. */
  ghost predicate ReadsFind(b: Backend) { forall t, address :: b.paragraph(t, address).Found? }

  predicate GoodCreate(reply: CreateReply, creation: Creation, pins: seq<Pin>) {
    && reply.Created? && reply.made.langcode == creation.langcode && reply.made.revision != ""
    && reply.made.id != "" && !Pinned(pins, reply.made.id)
  }

  /** The working copy shows the draft that was saved last. */
  predicate DraftShown(t: Trace, live: string, read: Read<HostEntity>) {
    var patches := Saved(t).patches;
    patches != [] ==>
      && read.Found? && read.value.vid.Some? && read.value.vid.value != live
      && read.value.pins == patches[|patches| - 1].pins
  }

  /** A draft that is sent is saved, and then the working copy shows it. */
  ghost predicate DraftsSucceed(b: Backend, live: string) {
    && (forall t, patch :: Confirms(b.preflight(t, patch), patch))
    && (forall t, patch :: b.draft(t, patch).Drafted?)
    && (forall t :: DraftShown(t, live, b.host(t, WorkingCopy)))
  }

  /** Nothing is refused, and new paragraphs get new ids. */
  ghost predicate WritesSucceed(b: Backend, w: Site) {
    && (forall t, bundle :: b.mayCreate(t, bundle))
    && (forall t, creation :: GoodCreate(b.create(t, creation), creation, w.draft))
    && (forall t, translation :: b.translate(t, translation))
    && DraftsSucceed(b, w.inventory.live)
  }

  lemma HostIsPlanned(b: Backend, spec: Spec, w: Site)
    requires SiteHolds(b.numbers, spec, w) && ReadsAreStable(b, spec, w)
    ensures HostPlan(b, spec, []).0 == PlanOf(spec, w.inventory, w.published, w.draft)
  {
    hide SameId, AllPinned, Reusable, ChildrenFit, Pinned, RequiredLangs, InventoryFits, WorkingOf, PlanOf, ParentFits;
  }

  lemma ParentIsPlanned(b: Backend, spec: Spec, w: Site, t: Trace)
    requires SiteHolds(b.numbers, spec, w) && ReadsAreStable(b, spec, w)
    ensures var host := PlanOf(spec, w.inventory, w.published, w.draft).value;
      var p := ParentPlan(b, spec, host, t).0;
      p.Some? && p.value == host.(parent := p.value.parent, langs := p.value.langs)
  {
    hide SameId, AllPinned, Reusable, ChildrenFit, Pinned, RequiredLangs, InventoryFits, WorkingOf, ParentFits,
         DraftSlot;
  }

  lemma SiteIsPlanned(b: Backend, spec: Spec, w: Site)
    requires SiteFits(b.numbers, spec, w) && ReadsAreStable(b, spec, w) && WritesSucceed(b, w)
    ensures Early(b, spec, false) == None
    ensures var p := Planned(b, spec).0;
      && p.Some? && p.value.slot < |p.value.draftPins|
      && p.value == PlanOf(spec, w.inventory, w.published, w.draft).value.(
           parent := p.value.parent, langs := p.value.langs)
  {
    HostIsPlanned(b, spec, w);
    ParentIsPlanned(b, spec, w, HostPlan(b, spec, []).1);
    PlannedSlot(b.numbers, spec, w);
    var plan := Planned(b, spec).0.value;
    AllPermitted(b, w, spec, plan.publishedPins[plan.slot].bundle, Planned(b, spec).1);
    hide HostPlan, ParentPlan, SiteHolds, ReadsAreStable, WritesSucceed, PermitsAll, PlanOf;
  }

  lemma PlannedSlot(n: Numbers, spec: Spec, w: Site)
    requires SiteFits(n, spec, w)
    ensures var p := PlanOf(spec, w.inventory, w.published, w.draft);
      p.Some? && p.value.slot < |p.value.draftPins| && !p.value.onServer && spec.resumeParentId == ""
  {
    hide SameId, AllPinned, Reusable, ChildrenFit, Pinned, RequiredLangs, InventoryFits;
  }

  lemma AllPermitted(b: Backend, w: Site, spec: Spec, bundle: string, t: Trace)
    requires WritesSucceed(b, w)
    ensures PermitsAll(b, spec, bundle, t)
  {
    hide DraftShown, GoodCreate, Confirms;
  }

  lemma {:induction false} HonestPrefix(b: Backend, t: Trace, k: nat)
    requires Honest(b, t) && k <= |t|
    ensures Honest(b, t[..k])
    decreases |t|
  {
    hide Answers;
    if k < |t| {
      HonestPrefix(b, t[..|t| - 1], k);
      assert t[..|t| - 1][..k] == t[..k];
    } else {
      assert t[..k] == t;
    }
  }

  lemma NothingFaults(b: Backend, w: Site, t: Trace, types: set<string>)
    requires ReadsFind(b) && WritesSucceed(b, w) && Honest(b, t)
    ensures !Faulted(b, t, types)
  {
    hide Confirms, DraftShown, Pinned;
    if t != [] {
      var before := t[..|t| - 1];
      assert Answers(b, before, t[|t| - 1]);
      match t[|t| - 1]
      case Create(creation, reply) => assert GoodCreate(b.create(before, creation), creation, w.draft);
      case _ =>
    }
  }

  lemma {:induction false} ReportedAreNew(b: Backend, w: Site, t: Trace)
    requires WritesSucceed(b, w) && Honest(b, t)
    ensures forall id <- Saved(t).reported :: !Pinned(w.draft, id)
  {
    hide Confirms, DraftShown, Pinned;
    if t != [] {
      var before := t[..|t| - 1];
      ReportedAreNew(b, w, before);
      assert Answers(b, before, t[|t| - 1]);
      match t[|t| - 1]
      case Create(creation, reply) => assert GoodCreate(b.create(before, creation), creation, w.draft);
      case _ =>
    }
  }

  /** Once a new parent is ready it is pinned and seen to be pinned. */
  lemma ReadyFinishes(b: Backend, spec: Spec, w: Site, plan: Plan, t: Trace, rows: seq<Row>)
    requires SiteFits(b.numbers, spec, w) && ReadsAreStable(b, spec, w) && WritesSucceed(b, w)
    requires plan.slot < |plan.draftPins| && plan.draftPins == w.draft && plan.live == w.inventory.live
    requires FirstWith(w.draft, spec.parentId) == plan.slot
    requires Honest(b, t) && Built(b.numbers, spec, plan, t, rows) && Saved(t).patches == []
    ensures rows != [] && Pinning(b, spec, plan, rows, t).0.Ok?
  {
    ParentIsNew(b, spec, w, plan, t, rows);
    hide Built, NextPins, SameId, AlreadyPinned, SiteFits, ReadsAreStable, WritesSucceed, PatchFor, PinSent, Saved;
    DraftIsSent(b, w, plan, t, rows);
    DraftIsSeen(b, spec, w, plan, PatchFor(b.numbers, plan, rows), PinSent(b, plan, rows, t).0);
  }

  lemma DraftIsSent(b: Backend, w: Site, plan: Plan, t: Trace, rows: seq<Row>)
    requires DraftsSucceed(b, w.inventory.live) && plan.slot < |plan.draftPins| && rows != []
    requires !AlreadyPinned(plan, rows[|rows| - 1]) && Saved(t).patches == []
    ensures var (t', missing) := PinSent(b, plan, rows, t);
      !missing && Saved(t').patches == [PatchFor(b.numbers, plan, rows)]
  {
    hide AlreadyPinned, PatchFor, Saved, DraftShown, GoodCreate;
    var patch := PatchFor(b.numbers, plan, rows);
    var t1 := t + [Preflight(patch, b.preflight(t, patch))];
    assert Confirms(b.preflight(t, patch), patch);
    assert b.draft(t1, patch).Drafted?;
    ReadSavesNothing(t, Preflight(patch, b.preflight(t, patch)));
    Appended(b, t1, HostDraft(patch, b.draft(t1, patch)));
  }

  lemma DraftIsSeen(b: Backend, spec: Spec, w: Site, plan: Plan, patch: HostPatch, t: Trace)
    requires SiteHolds(b.numbers, spec, w) && ReadsAreStable(b, spec, w) && DraftsSucceed(b, w.inventory.live)
    requires plan.live == w.inventory.live && Saved(t).patches == [patch]
    ensures ShowsPublished(ReRead(b, t), spec, plan.live)
    ensures var working := ReRead(b, t)[|ReRead(b, t)| - 1].host.value.vid;
      working.Some? && ShowsDraft(ReRead(b, t), plan.live, patch.pins, working.value)
  {
    hide Saved, InventoryFits, ChildrenFit, Reusable, AllPinned, Confirms, GoodCreate;
    var published := b.host(t, Default);
    ReadSavesNothing(t, HostRead(Default, published));
    var t1 := t + [HostRead(Default, published)];
    assert DraftShown(t1, plan.live, b.host(t1, WorkingCopy));
    PublishedPinsParent(b.numbers, spec, w.published);
  }

  lemma PublishedPinsParent(n: Numbers, spec: Spec, pins: seq<Pin>)
    requires PublishedFits(n, spec, pins) && spec.parentId != ""
    ensures Pinned(pins, spec.parentId)
  {
    var pin := pins[FirstWith(pins, spec.parentId)];
    assert SameId(pin.id, spec.parentId) && |Lower(pin.id)| == |pin.id|;
  }

  lemma ParentIsNew(b: Backend, spec: Spec, w: Site, plan: Plan, t: Trace, rows: seq<Row>)
    requires WritesSucceed(b, w) && Honest(b, t) && Built(b.numbers, spec, plan, t, rows)
    requires plan.slot < |plan.draftPins| && plan.draftPins == w.draft && spec.parentId != ""
    requires FirstWith(w.draft, spec.parentId) == plan.slot
    ensures rows != [] && !AlreadyPinned(plan, rows[|rows| - 1])
  {
    hide Honest, WritesSucceed;
    var row, pin := rows[|rows| - 1], plan.draftPins[plan.slot];
    assert |Lower(pin.id)| == |pin.id| && |Lower(spec.parentId)| == |spec.parentId| && |Lower(row.id)| == |row.id|;
    assert SameId(pin.id, spec.parentId);
    if AlreadyPinned(plan, row) {
      IdsContain(rows, row);
      PinsTheId(w.draft, pin, row.id);
      ReportedAreNew(b, w, t);
    }
  }

  lemma PinsTheId(pins: seq<Pin>, pin: Pin, id: string)
    requires pin in pins && pin.id != "" && SameId(pin.id, id)
    ensures Pinned(pins, id)
  {}

  /** On a site that answers as documented the run finishes. */
  lemma DocumentedSiteFinishes(
    b: Backend, spec: Spec, w: Site, t: Trace, rows: seq<Row>, r: Result<Outcome, Failure>)
    requires SiteFits(b.numbers, spec, w) && ReadsAreStable(b, spec, w) && ReadsFind(b) && WritesSucceed(b, w)
    requires Honest(b, t) && Ends(b, spec, false, t, rows, r)
    ensures r.Ok? && r.value.Finished?
  {
    hide Planned, Early, Honest, Built, Pinning, SiteFits, ReadsAreStable, WritesSucceed, Carried, ReadsFind;
    SiteIsPlanned(b, spec, w);
    SiteFacts(b, spec, w);
    var p := Planned(b, spec).0.value;
    CarriedFinishes(b, spec, w, p, t, rows, r);
  }

  lemma SiteFacts(b: Backend, spec: Spec, w: Site)
    requires SiteFits(b.numbers, spec, w) && ReadsAreStable(b, spec, w)
    ensures spec.resumeParentId == ""
    ensures var plan := PlanOf(spec, w.inventory, w.published, w.draft);
      && plan.Some? && plan.value.draftPins == w.draft && plan.value.live == w.inventory.live
      && FirstWith(w.draft, spec.parentId) == plan.value.slot
  {
    hide InventoryFits, ChildrenFit, Reusable, AllPinned, SameId;
  }

  lemma CarriedFinishes(
    b: Backend, spec: Spec, w: Site, plan: Plan, t: Trace, rows: seq<Row>, r: Result<Outcome, Failure>)
    requires SiteFits(b.numbers, spec, w) && ReadsAreStable(b, spec, w) && WritesSucceed(b, w)
    requires ReadsFind(b) && spec.resumeParentId == "" && plan.slot < |plan.draftPins|
    requires plan.draftPins == w.draft && plan.live == w.inventory.live
    requires FirstWith(w.draft, spec.parentId) == plan.slot
    requires Honest(b, t) && Carried(b, spec, plan, t, rows, r)
    ensures r.Ok? && r.value.Finished?
  {
    hide SiteFits, ReadsAreStable, WritesSucceed, ReadsFind, Honest, Saved, Built, Pinning, Faulted;
    if plan.slot < |plan.publishedPins| { NothingFaults(b, w, t, Types(spec, plan)); }
    var k: nat :|
      && k <= |t| && Ready(b.numbers, spec, plan, t[..k], rows) && rows != []
      && Saved(t[..k]).patches == [] && (r, t) == Pinning(b, spec, plan, rows, t[..k]);
    HonestPrefix(b, t, k);
    ReadyFinishes(b, spec, w, plan, t[..k], rows);
    PinningFinishes(b, spec, plan, rows, t[..k]);
  }

  lemma PinningFinishes(b: Backend, spec: Spec, plan: Plan, rows: seq<Row>, t: Trace)
    requires plan.slot < |plan.draftPins| && rows != []
    ensures var r := Pinning(b, spec, plan, rows, t).0;
      r.Ok? ==> r.value.Finished?
  {
    hide PinSent, ReRead, ShowsPublished, ShowsDraft;
  }

  /** The plainest such site: one component without children, published at revision 1. */
  const PLAIN_PINS := [Pin("text", false, "parent", "5")]
  const PLAIN_COMPONENT := Paragraph("parent", "text", "en", "5", "", "", [])

  function PlainSite(): Site {
    Site(
      Inventory("1", None, true, false, "en"), PLAIN_PINS, PLAIN_PINS, PLAIN_COMPONENT, Langs([]))
  }

  function PlainHost(t: Trace, version: Version): Read<HostEntity> {
    match version
    case Default => Found(HostEntity(Some("1"), PLAIN_PINS))
    case ById(vid) => Found(HostEntity(Some(vid), PLAIN_PINS))
    case WorkingCopy =>
      var patches := Saved(t).patches;
      if patches == [] then NotReturned else Found(HostEntity(Some("2"), patches[|patches| - 1].pins))
  }

  function PlainBackend(): Backend {
    Backend(
      Numbers((text: string) => text, (text: string) => text != ""),
      (t: Trace) => Found(PlainSite().inventory),
      (t: Trace, bundle: string, id: string, revision: string) => Langs([]),
      PlainHost,
      (t: Trace, address: Address) => Found(PlainSite().parent),
      (t: Trace, creation: Creation) => Created(Made("new", creation.langcode, "7")),
      (t: Trace, translation: Translation) => true,
      (t: Trace, patch: HostPatch) => Checked(true, patch.live, patch.working, true),
      (t: Trace, patch: HostPatch) => Drafted("host"),
      (t: Trace, bundle: string) => true)
  }

  /** Documented sites exist, so finishing on them is no empty promise. */
  lemma PlainSiteIsDocumented()
    ensures SiteFits(PlainBackend().numbers, Spec("host", "parent", "", "", []), PlainSite())
    ensures ReadsAreStable(PlainBackend(), Spec("host", "parent", "", "", []), PlainSite())
    ensures ReadsFind(PlainBackend()) && WritesSucceed(PlainBackend(), PlainSite())
  {
    hide WritesSucceed, ReadsAreStable, SiteFits;
    PlainSiteFits(PlainBackend().numbers);
    PlainReadsAreStable();
    PlainWritesSucceed();
  }

  lemma PlainReadsAreStable()
    requires SiteFits(PlainBackend().numbers, Spec("host", "parent", "", "", []), PlainSite())
    ensures ReadsAreStable(PlainBackend(), Spec("host", "parent", "", "", []), PlainSite())
  {
    hide Saved, SameId, CanonicalDraft.ValidVid, InventoryFits, ChildrenFit, ParentFits, Reusable, AllPinned;
  }

  lemma PlainSiteFits(n: Numbers)
    requires n.positive("5")
    ensures SiteFits(n, Spec("host", "parent", "", "", []), PlainSite())
  {
    assert CanonicalDraft.ValidVid("1") by {
      assert Decimal([]) == 0 && "1"[..0] == [];
    }
    hide Saved, CanonicalDraft.ValidVid, CanonicalDraft.FindRow;
    assert FirstWith(PLAIN_PINS, "parent") == 0;
    assert RequiredLangs([], "en") == [];
  }

  lemma PlainWritesSucceed()
    ensures WritesSucceed(PlainBackend(), PlainSite())
  {
    assert |Lower("parent")| == 6 && |Lower("new")| == 3;
    assert !Pinned(PLAIN_PINS, "new");
    PlainDraftsSucceed();
    hide Saved, Lower, Pinned, DraftsSucceed;
  }

  lemma PlainDraftsSucceed()
    ensures DraftsSucceed(PlainBackend(), "1")
  {
    hide Saved;
  }

  // ----- what a run means for the paragraphs in use -----

  /** Translations go to new paragraphs only, so a paragraph in use is never written unless it was reported as new. */
  lemma {:induction false} PinnedAreNotWritten(t: Trace, pins: seq<Pin>)
    requires Saved(t).foreign == []
    requires forall id <- Saved(t).reported :: !Pinned(pins, id)
    ensures forall w <- Saved(t).translations :: !Pinned(pins, w.id)
  {
    hide Pinned, Lower;
    if t != [] {
      var front, e := t[..|t| - 1], t[|t| - 1];
      assert Saved(t) == Post(Saved(front), e);
      PinnedAreNotWritten(front, pins);
      if e.Translate? && e.translation.id == "" { NothingPinsTheEmptyId(pins); }
    }
  }

  lemma NothingPinsTheEmptyId(pins: seq<Pin>)
    ensures !Pinned(pins, "")
  {}

  /** In each language of the component the client writes to whatever id the create of the parent reported. */
  lemma ReportedIsWritten(n: Numbers, spec: Spec, plan: Plan, t: Trace, rows: seq<Row>, lang: string)
    requires Built(n, spec, plan, t, rows) && lang in plan.langs
    ensures exists w <- Saved(t).translations :: w.id == rows[|rows| - 1].id && w.langcode == lang
  {
    hide Saved, ChildRefs, ChildTranslations, ChildCreations, NewChildren, KeptArePinned, Ids;
    var row, own := rows[|rows| - 1], ChildTranslations(spec.children, rows[..|rows| - 1], plan.langcode);
    var i :| 0 <= i < |plan.langs| && plan.langs[i] == lang;
    assert Copied(t, plan.parent, row, plan.langs[i], |own| + i);
    var e: Paragraph :|
      && ParagraphRead(Address(row.bundle, plan.parent.id, ParagraphVersion(plan.parent), lang), Found(e)) in t
      && Saved(t).translations[|own| + i] == Translation(row.bundle, row.id, row.revision, lang, e.copied);
    assert Saved(t).translations[|own| + i] in Saved(t).translations;
  }

  const GERMAN := Paragraph("parent", "text", "de", "5", "", "", [])
  const ECHOED := Create(
    Creation("text", "en", "", ParentReferences("", [])), Created(Made("parent", "en", "7")))
  const READ_GERMAN := ParagraphRead(Address("text", "parent", "id:5", "de"), Found(GERMAN))
  const WROTE_GERMAN := Translate(Translation("text", "parent", "7", "de", ""), true)
  const ECHO_RUN: Trace := [ECHOED, READ_GERMAN, WROTE_GERMAN]

  /** A backend that reports the published component's own id for the paragraph it is asked to make. */
  function EchoBackend(): Backend {
    PlainBackend().(
      paragraph := (t: Trace, address: Address) => Found(if address.langcode == "de" then GERMAN else PLAIN_COMPONENT),
      create := (t: Trace, creation: Creation) => Created(Made("parent", creation.langcode, "7")))
  }

  lemma EchoIs(b: Backend, c: Exchange, r: Exchange, w: Exchange)
    requires c.Create? && r.ParagraphRead? && w.Translate?
    requires MadeId(c.reply) != "" && w.translation.id == MadeId(c.reply)
    requires Answers(b, [], c) && Answers(b, [c], r) && Answers(b, [c, r], w)
    ensures Honest(b, [c, r, w])
    ensures Saved([c, r, w]) == Ledger([c.creation], [MadeId(c.reply)], [w.translation], [], [])
  {
    assert Saved([]) == NOTHING_SAVED && Honest(b, []);
    hide Saved, Honest, Answers, MadeId;
    assert [] + [c] == [c] && [c] + [r] == [c, r] && [c, r] + [w] == [c, r, w];
    Appended(b, [], c);
    assert Saved([c]) == Ledger([c.creation], [MadeId(c.reply)], [], [], []);
    Appended(b, [c], r);
    assert Saved([c, r]) == Saved([c]);
    Appended(b, [c, r], w);
  }

  lemma EchoRunIs()
    ensures Honest(EchoBackend(), ECHO_RUN)
    ensures Saved(ECHO_RUN) == Ledger([ECHOED.creation], ["parent"], [WROTE_GERMAN.translation], [], [])
  {
    assert Answers(EchoBackend(), [], ECHOED) && Answers(EchoBackend(), [ECHOED], READ_GERMAN);
    assert Answers(EchoBackend(), [ECHOED, READ_GERMAN], WROTE_GERMAN);
    hide EchoBackend, Answers, Saved, Honest;
    EchoIs(EchoBackend(), ECHOED, READ_GERMAN, WROTE_GERMAN);
  }

  /** One new paragraph for a component without children is all that is built. */
  lemma ChildlessIsBuilt(n: Numbers, spec: Spec, plan: Plan, t: Trace, row: Row)
    requires spec.children == [] && plan.slot < |plan.publishedPins| && row.id != ""
    requires row.isParent && row.bundle == plan.publishedPins[plan.slot].bundle
    requires Saved(t).creations == [Creation(
               row.bundle, plan.langcode, plan.parent.copied, ParentReferences(plan.parent.references, []))]
    requires Saved(t).reported == [row.id] && |Saved(t).translations| == |plan.langs|
    requires AllCopied(t, plan.parent, row, plan.langs, 0)
    ensures Built(n, spec, plan, t, [row])
  {
    OneParentId(row);
    hide Saved, AllCopied, Ids;
  }

  lemma OneParentId(row: Row)
    requires row.id != ""
    ensures [row][..0] == [] && Ids([row]) == [row.id]
  {
    assert Ids([]) == [];
  }

  /** So new ids are needed: with that backend the client writes to a paragraph that the published host pins. */
  lemma EchoedIdIsWritten()
    ensures Honest(EchoBackend(), ECHO_RUN) && Saved(ECHO_RUN).foreign == []
    ensures Built(
      EchoBackend().numbers, Spec("host", "parent", "", "", []),
      Plan("1", "", "en", false, PLAIN_PINS, PLAIN_PINS, 0, PLAIN_COMPONENT, ["de"]),
      ECHO_RUN, [Row("parent", "text", true, "7")])
    ensures exists w <- Saved(ECHO_RUN).translations :: Pinned(PLAIN_PINS, w.id)
  {
    EchoRunIs();
    var row := Row("parent", "text", true, "7");
    assert PLAIN_PINS[0] in PLAIN_PINS && Pinned(PLAIN_PINS, WROTE_GERMAN.translation.id);
    hide Saved, Honest, EchoBackend, Pinned, Ids;
    var plan := Plan("1", "", "en", false, PLAIN_PINS, PLAIN_PINS, 0, PLAIN_COMPONENT, ["de"]);
    assert WROTE_GERMAN.translation in Saved(ECHO_RUN).translations;
    assert "id:" + "5" == "id:5" && READ_GERMAN in ECHO_RUN;
    NowCopied(ECHO_RUN, PLAIN_COMPONENT, row, "de", 0, GERMAN);
    hide Copied;
    ChildlessIsBuilt(EchoBackend().numbers, Spec("host", "parent", "", "", []), plan, ECHO_RUN, row);
  }

  predicate PlainRevisions(pins: seq<Pin>) { forall pin <- pins :: '#' !in pin.revision }

  /**
   * A draft with the expected pins differs from the old one in the chosen slot alone, and there it has the new parent.
   */
  lemma OnlyTheSlotChanged(
    n: Numbers, t: Trace, live: string, was: seq<Pin>, slot: nat, row: Row, working: string, i: nat)
    requires slot < |was| && i < |was|
    requires ShowsDraft(t, live, NextPins(n, was, slot, row), working)
    requires PlainRevisions(t[|t| - 1].host.value.pins) && PlainRevisions(NextPins(n, was, slot, row))
    ensures |t[|t| - 1].host.value.pins| == |was|
    ensures var pin := t[|t| - 1].host.value.pins[i];
      if i == slot then SameId(pin.id, row.id) && pin.revision == Embed(n, row.bundle, row.id, row.revision).revision
      else SameId(pin.id, was[i].id) && pin.revision == PinRef(n, was[i]).revision
  {
    hide SameId, Keys;
    var now, next := t[|t| - 1].host.value.pins, NextPins(n, was, slot, row);
    assert |Keys(now)| == |now| && |Keys(next)| == |next|;
    assert Keys(now)[i] == PinKey(now[i]) && Keys(next)[i] == PinKey(next[i]);
    PinKeyIsFaithful(now[i], next[i]);
  }
}
