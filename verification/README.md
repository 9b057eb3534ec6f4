# Verified model of the connector's protocols

This project models the parts of the connector that keep state or take part in a protocol, and proves what they promise.
Each module is one component:

- `Pins`, `PinKey`: comparing the paragraphs that a host pins, per field and in order, "same revision or newer", and the
  text key two lists are compared by.
- `CanonicalDraft`, `CanonicalLaws`, `RevisionStore`, `DraftClient`: draft writes on a library item or custom block.
  `CanonicalDraft` is the client as functions of the answers it gets, so its theorems hold for every host, honest or
  not. `RevisionStore` puts a store with one writer behind it, whose answers an outage may take the place of at any
  time. `DraftClient` is the client as it runs, step by step, equal to those functions. `CanonicalLaws` tells the whole
  write by the answers alone, with statuses, texts and bounds written out.
- `NestedDraft`, `NestedLaws`, `NestedClient`, `NestedResume`: drafting a change inside a component through the client
  sequence of creates, translations, preflight, draft and re-read. The trace of all requests and answers is part of the
  model. `NestedDraft` says what a trace shows and proves what follows; `NestedClient` is the client as it runs, with
  contracts about its trace. `NestedResume` is about taking up the parent that an interrupted run made. `NestedLaws`
  tells reads, checks, requests and exits by the answers, with every address written out.
- `Framing`, `Relay`: the length-prefixed tunnel and the lab relay's waiters and revocable tokens.
- `SessionTable`: the table of legacy MCP sessions, with every interleaving at its awaits.
- `Budgets`: fixed-window counters with their true rate bound, and who shares a counter.
- `InFlight`, `Dispatch`: the registry of calls in flight, and one tool call with all its ways out.
- `CatalogNotify`: which session hears of catalog changes, and the debounced emit.
- `ErrorData`, `GraphqlErrors`: cleaning failure payloads and lists of GraphQL errors.
- `LinkPool`: the link checker's workers, with every interleaving and every answer of the network.
- `RevocationList`: the revocation file and its cache.
- `ErrRelationships`: giving every paragraph reference its revision before a write.
- `Common`: shared datatypes and text helpers.

Where the program keeps mutable state, a class has the same fields and its methods are proved equal to the step function
that the theorems are about. `dafny verify dfyconfig.toml` checks everything.

Time, randomness, the network and the file system are inputs: monotone clocks, fresh ids, and answers that may be
anything. JavaScript's `await` is where other tasks may run; what is between two awaits is one step.

## What was found on the way

These points of the code differ from what one might expect, or from its comments. Each has a lemma.

- Any agent channel that closes, also one that was never the session, rejects all waiters
  (`Relay.CloseLeavesNoWaiter`).
- The window key joins its parts with colons, so on two targets different principals can share a window
  (`Budgets.ColonsCollide`); for which target names is stated exactly (`Budgets.TargetsShareExactly`).
- A fixed window of limit L grants up to (k + 1) * L in k window lengths, and that is met (`Budgets.RateBoundIsMet`).
- The session cap is exceeded by overlapping opens, and by exactly how much is proved and met (`SessionTable.CapIsMet`).
- The in-flight caps bound tracked rows, not running calls (`InFlight.CapsDoNotBoundRunningCalls`); they bound the running
  calls up to those a kill took and that have not ended (`InFlight.TrackedAreTheRunning`).
- A save that ended as uncertain can have lost pins, and the next draft is then verified without them
  (`RevisionStore.UncertainCanLosePins`); on a store of revisions whose published
  revision stays, that is the only way paragraphs get lost (`RevisionStore.ParagraphsAreKeptExactly`).
- A backend that reports an id in use for the paragraph it is asked to make has that paragraph translated
  (`NestedDraft.EchoedIdIsWritten`).
- An update whose first read does not look moderated is passed through: its reply is returned unverified and its errors as
  they come (`CanonicalDraft.SavingExits`).
- A server that is registered again on the same stdio transport can keep a listen the client has closed
  (`CatalogNotify.ReboundServerIsStale`); binding is exact if and only if it brings no id of its own.
- Binding passes an old-style initialize on to a server that negotiated a modern version
  (`CatalogNotify.ModernServerTakesOver`), and nothing else does (`CatalogNotify.ModernStaysModern`).
- `revoke` trims the token id and `isRevoked` does not (`RevocationList.RevokedAsGiven`); a file whose lists are no
  lists makes `revoke` throw (`RevocationList.RevokeOutcome`); a write within one modification time is not seen
  (`RevocationList.SameTimeHidesAWrite`).
- A revocation file that may not be looked at revokes nothing, though `revoke` calls it unreadable
  (`RevocationList.DeniedStatFailsOpen`); so does one that holds a number, a truth value or an array, while `null` and a
  text revoke everything. When the answer is the fail-closed one is stated exactly (`RevocationList.FailsClosedExactly`).
- A GraphQL error that is a text and reads "5 more errors not shown" comes out as a count
  (`GraphqlErrors.CountTextIsMiscounted`); the documented stability has an exact condition
  (`GraphqlErrors.CleaningIsStable`).
- A negative `maxLinks` over an empty list flags truncation although nothing was left out
  (`LinkPool.TruncatedIsExact`).
- A reference that is no paragraph is copied without its further keys, although the comment calls it unchanged
  (`ErrRelationships.NodeReferenceLosesKeys`); when a copy is equal is stated exactly
  (`ErrRelationships.CopyIsEqualExactly`).

## Model

| member | source | states |
|---|---|---|
| `Pins.LandedIsReflexive` | src/lib/canonical-draft.js:824-861 | every pin list has landed in itself |
| `Pins.LandedIsTransitive` | src/lib/canonical-draft.js:824-861 | "landed, same revision or newer" composes over successive drafts, for all lists, also where revisions are no numbers |
| `Pins.LandedKeepsParagraphs` | src/lib/canonical-draft.js:824-861 | what has landed pins the same paragraphs in the same per-field order, so it agrees with any third list exactly if the first did |
| `Pins.LandedIgnoresInterleaving` | src/lib/canonical-draft.js:843-861 | lists with the same per-field sequences are interchangeable on both sides |
| `Pins.PinsByField` | src/lib/canonical-draft.js:806-813 | the grouping loop yields exactly the fields that occur, each with its pins in order |
| `Pins.SubmittedPinsLanded` | src/lib/canonical-draft.js:843-861 | the program's comparison of grouped lists decides, in both directions, the per-field order relation |
| `Pins.DifferentFieldsDoNotLand` | src/lib/canonical-draft.js:846-851 | lists that name different fields never count as landed |
| `Pins.SubmittedParagraphPins` | src/lib/canonical-draft.js:753-782 | the loop over submitted relationships collects exactly the named fields and their paragraph pins, or nothing when none is named |
| `Pins.SubmittedPinsAreNamed` | src/lib/canonical-draft.js:753-782 | each collected pin belongs to a field that was named |
| `Pins.SubmitsExactly` | src/lib/canonical-draft.js:758-774 | a field is named by an explicit null, an empty list or a paragraph in it, and by nothing else |
| `Pins.RefIsPinned` | src/lib/canonical-draft.js:762-773 | each entry with an id that is a paragraph gives one pin, in order; an empty revision is a missing one |
| `Pins.SubmissionGrowsBy` | src/lib/canonical-draft.js:753-782 | one more relationship adds its field if it names it and its pins after the others |
| `Pins.SubmissionFieldByField` | src/lib/canonical-draft.js:614-618 | a submission has landed if and only if each named field matches; a field that was cleared is empty afterwards |
| `PinKey.KeyIsFaithful` | src/lib/canonical-draft.js:788-799 | for pins with ids and without NUL and newline, two keys are equal if and only if every field has the same ordered ids and revisions |
| `PinKey.SamePinsSameKey` | src/lib/canonical-draft.js:788-799 | the key does not depend on how fields interleave, for any pins |
| `PinKey.SamePinsLand` | src/lib/canonical-draft.js:788-861 | equal pins have landed in each other, so the key test is stronger than the order test |
| `PinKey.PinKey` | src/lib/canonical-draft.js:788-799 | the grouping, sorting and joining loop computes the key of the theorem |
| `CanonicalDraft.ReadVersion` | src/lib/canonical-draft.js:496-524 | a versioned read sends no saving request, and none at all without a reader |
| `CanonicalDraft.ReadPair` | src/lib/canonical-draft.js:551-586 | the three reads save nothing, and every way they fail carries the caller's error |
| `CanonicalDraft.SelectGoverned` | src/lib/canonical-draft.js:328-372 | choosing the governed route saves nothing, its only error is the identity error, and a chosen route names the revisions that were read |
| `CanonicalDraft.AfterFailure` | src/lib/canonical-draft.js:450-463 | a failed save ends as the host's own error if and only if it is a definitive 4xx and a complete re-read equals the state before |
| `CanonicalDraft.ExitsAreHonest` | src/lib/canonical-draft.js:213-275 | for every host at most one saving request is sent, and the two "No write was attempted" errors occur exactly on runs with none |
| `CanonicalDraft.ExitsAfterSaving` | src/lib/canonical-draft.js:238-275 | after a saving request for an entity whose first read looked moderated every exit is a verified return, a definitive 4xx with an equal re-read, a missing endpoint or an uncertain result |
| `CanonicalDraft.SavingExits` | src/lib/canonical-draft.js:213-275 | after any saving request the exit is one of those four if and only if the first read looked moderated; otherwise the reply is passed on unverified or the host's own error thrown |
| `CanonicalDraft.ConfirmChecks` | src/lib/canonical-draft.js:437-483 | a return after a save means the re-read passed every check, for opening and for other writes |
| `CanonicalDraft.ReturnMeansPublishedKept` | src/lib/canonical-draft.js:213-275 | a normal return for a published moderated entity means one save, the same default revision, the latest version equal to it, equal published pins and a new forward revision |
| `CanonicalDraft.PreparedFromReads` | src/lib/canonical-draft.js:213-243 | the state a save is judged against is what was read just before it |
| `CanonicalDraft.PatchOnlyWithoutDraft` | src/lib/canonical-draft.js:213-275 | a canonical PATCH is sent for a moderated entity only when no forward draft was read |
| `CanonicalLaws.PublishedNeedsForwardState` | src/lib/canonical-draft.js:229-234 | for every host: with a matching latest version a published moderated entity is saved only if the state asked for is "draft" or "review"; for any other state the exit is the identity error and nothing is saved |
| `CanonicalLaws.AnswersAreClassified` | src/lib/canonical-draft.js:510-523 | 404, and a 403 with the phrase for the working copy alone, mean absent; 401 and any other 403 mean denied |
| `CanonicalLaws.PairIsExact` | src/lib/canonical-draft.js:551-586 | the pair is read if and only if the default and the latest version are found under the right id with a revision id and the working copy is so too or is said to be absent; each part of the pair is from its own answer |
| `CanonicalLaws.ReadingStopsEarly` | src/lib/canonical-draft.js:556-565 | a failed or foreign revision ends the reading before the next one is asked for |
| `CanonicalLaws.VidsAreNumbers` | src/lib/canonical-draft.js:277-285 | a usable revision id is the decimal text of a number from 1 to 9007199254740991, and no other text is |
| `CanonicalLaws.RouteIsExact` | src/lib/canonical-draft.js:296-372 | the draft route is taken if and only if type, backend and query allow it and the inventory offers drafts, tells the revisions that were read and names a usable language; it is not there if and only if one of the stated absences holds; else the identity error |
| `CanonicalLaws.SavesExactly` | src/lib/canonical-draft.js:213-243 | which saving request goes out, PATCH or draft with its revisions and language, or which of the two errors is thrown with nothing saved, written out over the first look, the pair and the inventory |
| `CanonicalLaws.RefusedIsExact` | src/lib/canonical-draft.js:244-259 | a refused save ends as missing endpoint, as the host's own error if and only if the status is 400 to 499 but not 408 or 429 and the re-read tells the same revisions and pins, else as uncertain; and the requests sent for that |
| `CanonicalLaws.ConfirmedExactly` | src/lib/canonical-draft.js:260-275 | an accepted save is returned if and only if the answer names the entity and the re-read shows the stated revisions and pins; what is returned then, and uncertain otherwise |
| `CanonicalLaws.GuardedIsConfirmed` | src/lib/canonical-draft.js:213-275 | what is confirmed is the request that was called for, sent right after the reads |
| `CanonicalLaws.UnmoderatedIsPassedThrough` | src/lib/canonical-draft.js:216-219 | an entity that did not look moderated is patched, its reply returned as it is or its error thrown |
| `RevisionStore.PairShowsStore` | src/lib/canonical-draft.js:551-586 | against a store the reads show its revisions, unless they fail |
| `RevisionStore.NoDraftIsDisplaced` | src/lib/canonical-draft.js:213-275 | on a store with one writer a canonical PATCH never meets a forward draft, whatever saving does |
| `RevisionStore.VerifiedShowsStore` | src/lib/canonical-draft.js:437-483 | a verified return describes the store before and after the write |
| `RevisionStore.OneWriteAdvances` | src/lib/canonical-draft.js:594-629 | one write that is refused, verified, rejected, or met no endpoint keeps the published pins and leaves a draft no older than the origin; so does one that failed otherwise if the store it left shows it |
| `RevisionStore.DraftsOnlyAdvance` | src/lib/canonical-draft.js:594-629 | over any run of writes that submit no relationships, each accountable as in `OneWriteAdvances`, every verified draft pins the same paragraphs in the same per-field order at revisions no older than those published at the start |
| `RevisionStore.RejectedKeepsStore` | src/lib/canonical-draft.js:450-463 | where a revision fixes what it pins, a rejected write leaves the published pins and a draft no older than the origin if it was so before |
| `RevisionStore.MissingKeepsStore` | src/lib/canonical-draft.js:442-451 | a draft request that met no endpoint, and saved nothing, left the store as it was |
| `RevisionStore.RevisionsOnlyAdvance` | src/lib/canonical-draft.js:213-275 | on a store of revisions with outages, from a published moderated entity on: the same over any run, rejected, unreachable and refused writes included, as far as no uncertain one left a worse draft |
| `RevisionStore.UncertainCanLosePins` | src/lib/canonical-draft.js:450-483 | without that a draft that lost the pins can be verified: the continuation is judged against the draft the uncertain save left |
| `RevisionStore.VerifiedShowsParagraphs` | src/lib/canonical-draft.js:594-629 | a verified write shows the origin's paragraphs, per field and in order, if and only if what it was judged against had them, and if and only if the store afterwards has them |
| `RevisionStore.StoppedKeepsCurrent` | src/lib/canonical-draft.js:213-275 | a write that stopped otherwise than uncertain left published revision and current pins as they were |
| `RevisionStore.ParagraphsAreKeptExactly` | src/lib/canonical-draft.js:213-275 | on a store of revisions with outages, over any run whose uncertain writes publish nothing: all verified drafts pin the origin's paragraphs if and only if no uncertain write lost them and was next built upon by a verified one |
| `RevisionStore.PublishedStart` | src/lib/canonical-draft.js:594-629 | such a run may start at any published revision without a draft |
| `RevisionStore.DraftingSucceeds` | src/lib/canonical-draft.js:213-275 | on a store that saves drafts as documented and is up the write is verified and returned, so the checks are not too strict |
| `RevisionStore.FirstDraftIsOpened` | src/lib/canonical-draft.js:213-275 | such a store exists: a first draft over any published pins is sent, verified and returned |
| `DraftClient.PublishedProblems` | src/lib/canonical-draft.js:594-610 | each listed problem is present exactly when its condition holds, and none is listed exactly when the published state was kept |
| `DraftClient.AssertPublishedPreserved` | src/lib/canonical-draft.js:594-629 | the appended problems are complete, and the list is empty if and only if published state and forward pins were kept |
| `DraftClient.ForwardProblem` | src/lib/canonical-draft.js:611-625 | the forward check decides the forward relation and names the right problem |
| `DraftClient.DraftClient.GetVersion` | src/lib/canonical-draft.js:496-524 | one read as a step equals the function |
| `DraftClient.DraftClient.GetPair` | src/lib/canonical-draft.js:551-586 | the read steps equal the function, answer and requests |
| `DraftClient.DraftClient.Select` | src/lib/canonical-draft.js:328-372 | the route choice as steps equals the function |
| `DraftClient.DraftClient.PublishedStateUnchanged` | src/lib/canonical-draft.js:718-733 | the re-read compares exactly revisions and pins, or says that it failed |
| `DraftClient.DraftClient.FailedSave` | src/lib/canonical-draft.js:450-463 | the handling of a failed save equals the function |
| `DraftClient.DraftClient.Save` | src/lib/canonical-draft.js:437-483 | sending, judging and confirming a save as steps equals the function |
| `DraftClient.DraftClient.WriteCanonicalModeratedEntity` | src/lib/canonical-draft.js:213-275 | the whole write as steps equals the function the theorems are about, answer and requests |
| `NestedDraft.PinKeyIsFaithful` | src/lib/nested-draft.js:1377-1379 | two pins have equal keys if and only if id (ignoring case) and revision agree, for revisions without '#' |
| `NestedDraft.FirstWith` | src/lib/nested-draft.js:134-168 | the first pin of an id, or none if and only if no pin has it |
| `NestedDraft.AssertChildren` | src/lib/nested-draft.js:721-766 | the loop accepts if and only if kept and replaced children are the component's, none twice, and new ones have every required language |
| `NestedClient.Client.CreateParagraph` | src/lib/nested-draft.js:777-837 | on success one create and its translations in order were sent and one row recorded; an error carries all prepared paragraphs or none exist |
| `NestedClient.Client.TranslateNew` | src/lib/nested-draft.js:821-835 | the other languages are drafted in order on the paragraph just made, the default language is skipped |
| `NestedClient.Client.CreateChildren` | src/lib/nested-draft.js:225-233 | one create per new child in order, and the child list has kept pins and new paragraphs each in its place |
| `NestedClient.Client.CopyParentTranslations` | src/lib/nested-draft.js:940-970 | the new parent is given, in each required language, what was read of the component in that language |
| `NestedClient.Client.ConfirmLanded` | src/lib/nested-draft.js:877-909 | the re-read asks for the published revision and then the working copy, and decides: landed with its component and a forward revision with exactly the expected pins, uncertain exactly when the published state was not shown |
| `NestedClient.Client.PinParent` | src/lib/nested-draft.js:250-289 | the requests and the exit are those of `Pinning`: a missing endpoint exactly when preflight or draft were answered so, and otherwise the re-read decides however the request was answered |
| `NestedClient.Client.CheckResumedChild` | src/lib/nested-draft.js:1146-1177 | an accepted child of a resumed parent is pinned as asked and was read back with the asked content in every language |
| `NestedClient.Client.AssertResumeMatches` | src/lib/nested-draft.js:1130-1188 | an accepted resumed parent is the one this request would have made, children and languages included |
| `NestedClient.Client.RequiredTranslationLangs` | src/lib/nested-draft.js:1068-1082 | the languages of the inventory without the default one, each once; a missing endpoint means none |
| `NestedClient.Client.ReadHost` | src/lib/nested-draft.js:100-171 | the requests and the plan are those of `HostPlan`: the published revision, a valid working revision with a draft row in the default language, the slot and the pins, all as the answers say |
| `NestedClient.Client.ReadParent` | src/lib/nested-draft.js:172-186 | the requests and the plan are those of `ParentPlan`: the component that was asked, without reusable or unpinned children, its languages as the inventory lists them, and children that fit them |
| `NestedClient.Client.Check` | src/lib/nested-draft.js:95-218 | all reads and checks save nothing; they end the run early exactly as the answers say, or leave an approved plan |
| `NestedDraft.PlannedIsApproved` | src/lib/nested-draft.js:100-205 | a plan is witnessed by the answers in the trace, each named: inventory, published and working revision, component and languages, and the create policy |
| `NestedDraft.PinningIsSound` | src/lib/nested-draft.js:250-290 | from a prepared parent at most one draft is sent, after a preflight that agreed; a success was seen, and an error names the paragraphs unless the endpoint is missing |
| `NestedClient.Client.Resume` | src/lib/nested-draft.js:219-224 | resuming saves nothing and names the resumed parent alone |
| `NestedClient.Client.Build` | src/lib/nested-draft.js:225-242 | everything asked for was made, or the error names every paragraph the backend reported |
| `NestedClient.Client.DraftNestedComponents` | src/lib/nested-draft.js:95-290 | every check is answered in a prefix of the trace with nothing saved; the plan is what those answers say; one host draft at most, and none when the draft already pins the parent; a finished run kept the published revision and replaced one slot; every error names each reported paragraph unless the last answer was a missing endpoint; every exit has its cause in the answers |
| `NestedDraft.DocumentedSiteFinishes` | src/lib/nested-draft.js:95-290 | on a site that answers as documented and whose content fits the request a run that makes a new parent finishes |
| `NestedDraft.PlainSiteIsDocumented` | src/lib/nested-draft.js:95-290 | such sites exist |
| `NestedResume.ServedParentResumes` | src/lib/nested-draft.js:219-290 | on such a site that serves a parent as the request would make it, the run that resumes it finishes, also when the draft already pins it |
| `NestedResume.MadeIsServed` | src/lib/nested-draft.js:1130-1188 | what an earlier run made for the same request, and the site serves as it was sent, passes every check of a resumed parent |
| `NestedResume.InterruptedRunResumes` | src/lib/nested-draft.js:219-290 | so after a run that was interrupted when everything was made, the run that resumes its parent finishes |
| `NestedResume.InterruptedRunsExist` | src/lib/nested-draft.js:219-290 | such sites and runs exist, with a replaced child and two languages |
| `NestedDraft.PinnedAreNotWritten` | src/lib/nested-draft.js:819-835 | a pinned paragraph is never translated unless the backend reported its id as new |
| `NestedDraft.ReportedIsWritten` | src/lib/nested-draft.js:940-970 | in each language of the component the client writes to the id that the create of the parent reported |
| `NestedDraft.EchoedIdIsWritten` | src/lib/nested-draft.js:777-970 | so new ids are needed: a backend that reports the published component's own id has it translated |
| `NestedDraft.OnlyTheSlotChanged` | src/lib/nested-draft.js:247-249 | after a finished run every other component is pinned as in the old draft, and the slot pins the new parent |
| `NestedLaws.ComponentIsReadAsPinned` | src/lib/nested-draft.js:172-178 | every plan rests on the component read at the revision that the published host pins, at the address written out, and that paragraph is the one planned with |
| `NestedLaws.RunsReadThePinned` | src/lib/nested-draft.js:95-290 | so in every run that gets past the checks that read is in the trace |
| `NestedLaws.HostPlanIsExact` | src/lib/nested-draft.js:100-171 | which reads of the host are made, by which version, when they end the run, and the plan that follows otherwise, written out over the answers |
| `NestedLaws.ParentPlanIsExact` | src/lib/nested-draft.js:172-186 | the same for the component and its languages |
| `NestedLaws.ChildrenFitExactly` | src/lib/nested-draft.js:721-766 | the children are accepted if and only if kept and replaced ones are the component's, none twice, and replaced and new ones have every required language |
| `NestedLaws.EarlyIsExact` | src/lib/nested-draft.js:187-218 | a refused type, the server route and a dry run end the run before anything is prepared, in that order |
| `NestedLaws.IdsIgnoreCase` | src/lib/nested-draft.js:1394-1397 | two ids are the same if and only if they differ at most in the case of ASCII letters |
| `NestedLaws.LangsAreListedOnce` | src/lib/nested-draft.js:1073-1077 | each required language is listed once, in the order in which the inventory lists it first |
| `NestedLaws.ChildIsReferredTo` | src/lib/nested-draft.js:225-233 | each entry of the new child list: a kept child as it is pinned, any other by the paragraph that was made for it |
| `NestedLaws.ChildIsCreated` | src/lib/nested-draft.js:225-233 | each new child has one create, in its place, in the default language and without references |
| `NestedLaws.ChildrenAreTranslatedInTurn` | src/lib/nested-draft.js:821-835 | the new children are translated in their order, each by its own id and revision |
| `NestedLaws.WordingsAreDrafted` | src/lib/nested-draft.js:821-835 | of one paragraph each wording but that of the default language is drafted, in order, for the new id and revision |
| `NestedLaws.LanguagesAreCopied` | src/lib/nested-draft.js:940-970 | each language of the component is read at its own revision, `id:null` if it has none, and what is read is drafted for the new parent, in the order of the languages and after all that its children are given |
| `NestedLaws.PatchIsExact` | src/lib/nested-draft.js:247-261 | the draft request names both revisions and the language and keeps every component but the one in the slot |
| `NestedLaws.PinSentExactly` | src/lib/nested-draft.js:250-277 | nothing is sent for a parent the draft pins; else a preflight, and the draft request if and only if the preflight agrees |
| `NestedLaws.PinningIsExact` | src/lib/nested-draft.js:262-290 | how the run ends, written out over the two re-reads: missing endpoint, uncertain, partial or finished |
| `NestedLaws.FaultsAreExact` | src/lib/nested-draft.js:777-970 | what stops a preparation: a refused type, a failed create, one in another language or without a revision, a failed translation, a lost read |
| `NestedLaws.ResumedIsRead` | src/lib/nested-draft.js:219-224 | a resumed parent is read at its default revision and has a revision, the id asked for and the component's content |
| `NestedLaws.KeptIsResumed` | src/lib/nested-draft.js:1150-1156 | a kept child of a resumed parent is pinned at the revision the component pins it at |
| `NestedLaws.NewIsResumed` | src/lib/nested-draft.js:1157-1177 | a new child of a resumed parent is none of the component's and was read at its pin, in every language, as the request would have made it |
| `NestedLaws.LanguageIsResumed` | src/lib/nested-draft.js:1179-1187 | each language of the component was read at the component's revision and at the resumed parent's, and they agree |
| `Framing.ParseAppend` | lab/outbound-relay/harness.js:559-575 | reading in two pieces gives the frames, the rest and the cut of reading the whole |
| `Framing.ChunkingIsInvisible` | lab/outbound-relay/harness.js:559-575 | for any bytes in any chunks the outcome depends only on the concatenation |
| `Framing.DeliversMaximalPrefix` | lab/outbound-relay/harness.js:559-575 | the frames delivered and the bytes kept are the one maximal whole-frame prefix and its remainder, in both directions, after every chunk |
| `Framing.RoundTrip` | lab/outbound-relay/harness.js:559-587 | the reader undoes the writer under any chunking exactly when all bodies are within the limit; otherwise it delivers those before the first that is not and cuts |
| `Framing.WireFormat` | lab/outbound-relay/harness.js:581-587 | a frame is the length in four bytes, most significant first, and then the body |
| `Framing.LimitIsExact` | lab/outbound-relay/harness.js:559-575 | a frame whose body has at most 8388608 bytes is handed on at once, a longer one cuts the channel |
| `Framing.Socket.WriteFrame` | lab/outbound-relay/harness.js:581-587 | a writable socket gets header and body, another nothing |
| `Framing.Framer.OnData` | lab/outbound-relay/harness.js:559-575 | one data event as a loop equals the reading function |
| `Relay.LookupAfterRevoke` | lab/outbound-relay/harness.js:121-134 | revoking marks every token of the identity and no other |
| `Relay.LookupAfterIssue` | lab/outbound-relay/harness.js:111-125 | issuing changes the lookup of no earlier token |
| `Relay.StepSettles` | lab/outbound-relay/harness.js:265-380 | one step settles exactly the waiters that leave the pending map, each once |
| `Relay.OutcomesAreEarned` | lab/outbound-relay/harness.js:301-315 | a waiter is settled with a body if and only if the step is the response to it with that body, as timed out if and only if it is its timer, as cut off if and only if it is a close |
| `Relay.EachHearsItsFate` | lab/outbound-relay/harness.js:301-375 | over any run a pending waiter is settled exactly as the first event about it says; so one that is answered in time gets exactly the body that came |
| `Relay.GoneHearsNothing` | lab/outbound-relay/harness.js:301-375 | and after that it hears nothing more |
| `Relay.HelloIsExact` | lab/outbound-relay/harness.js:275-300 | a hello is denied as unauthenticated or revoked, or takes the session over from any other socket |
| `Relay.NorthboundIsExact` | lab/outbound-relay/harness.js:331-375 | 403, 503 and 502 in that order, else one frame and one new waiter |
| `Relay.SessionEndsExactly` | lab/outbound-relay/harness.js:275-310 | a session ends by the close of its own socket or a hello, and by nothing else |
| `Relay.TokensStand` | lab/outbound-relay/harness.js:103-134 | over any run a token finds whom it was first issued to, revoked if and only if that identity was revoked since |
| `Relay.SettledExactlyOnce` | lab/outbound-relay/harness.js:265-380 | in every run each dispatched waiter is settled once if it left the pending map and not otherwise, and pending ones have a live timer |
| `Relay.CloseLeavesNoWaiter` | lab/outbound-relay/harness.js:309-315 | no waiter or timer survives the close of any agent channel, and another session stays |
| `Relay.RevokedIsSilent` | lab/outbound-relay/harness.js:324-380 | in every run no request frame is written under a revoked token |
| `Relay.RevokeSilences` | lab/outbound-relay/harness.js:130-134 | from a revocation on, none is written under any token of that identity |
| `Relay.FramesAreAuthorized` | lab/outbound-relay/harness.js:324-375 | a request frame goes to the session's socket under its token, which is issued and not revoked at that moment |
| `Relay.LabRelay.RevokeIdentity` | lab/outbound-relay/harness.js:130-134 | the loop marks exactly the identity's entries |
| `Relay.LabRelay.HandleHello` | lab/outbound-relay/harness.js:275-300 | a hello is denied, refused or becomes the session as the step says, and another socket is destroyed |
| `Relay.LabRelay.HandleClosed` | lab/outbound-relay/harness.js:309-315 | the loop rejects every waiter and clears its timer |
| `Relay.LabRelay.HandleNorthbound` | lab/outbound-relay/harness.js:331-375 | the northbound checks and the dispatch equal the step |
| `SessionTable.OrderedByUse` | src/lib/http-handler.js:272-289 | in a well-ordered table a later entry was used no earlier, so the first is a least recently used one |
| `SessionTable.StepKeepsInv` | src/lib/http-handler.js:235-350 | every step keeps the order and the owners, and each eviction, use and deletion it makes is justified |
| `SessionTable.RunKeepsInv` | src/lib/http-handler.js:235-350 | so does every run over all interleavings at awaits |
| `SessionTable.SweptClean` | src/lib/http-handler.js:250-258 | when an idle sweep is done no idle entry is left, whatever ran in between |
| `SessionTable.StepGrowth` | src/lib/http-handler.js:264-296 | only the capacity check raises entries plus opens, and it leaves room for itself |
| `SessionTable.CapUnderOverlap` | src/lib/http-handler.js:264-296 | with at most n overlapping opens the table holds at most maxSessions - 1 + n entries |
| `SessionTable.CapWithoutOverlap` | src/lib/http-handler.js:264-296 | without overlap the cap is strict |
| `SessionTable.CapIsMet` | src/lib/http-handler.js:264-296 | for every cap, every overlap and every idle time some run reaches the bound |
| `SessionTable.SessionsKeepTheirOwner` | src/lib/http-handler.js:298-350 | in every run a session is used or deleted only under the principal that opened it |
| `SessionTable.EffectsHappen` | src/lib/http-handler.js:235-350 | each effect of a step is what becomes of the table: a deleted, evicted or displaced session is gone and all others stay, a used or opened one is last with the new time; without one the table stays |
| `SessionTable.EndedIsOver` | src/lib/http-handler.js:235-350 | over any run nothing follows the end of a session: no use, no second deletion, eviction or displacement |
| `SessionTable.UnlistedStaysGone` | src/lib/http-handler.js:235-350 | a session that has left the table never comes up again in any run |
| `SessionTable.ListedServesItsOwner` | src/lib/http-handler.js:313-331 | a routed request for a listed session deletes or uses it exactly for the non-empty principal that opened it, and is answered 403 otherwise |
| `SessionTable.UnlistedIsNotFound` | src/lib/http-handler.js:313-318 | any other session id is answered 404 |
| `SessionTable.SweepStartsExactly` | src/lib/http-handler.js:250-253 | a sweep takes all sessions there are, against the clock less the idle time, or none if that is off or negative |
| `SessionTable.VisitIsExact` | src/lib/http-handler.js:253-257 | a visited session is evicted if and only if it is still listed and idle |
| `SessionTable.RoomIsMadeExactly` | src/lib/http-handler.js:264-270 | the first entry goes exactly while the table is full |
| `SessionTable.OpensExactly` | src/lib/http-handler.js:278-296 | an open ends with the new session under the principal it was for, or with nothing |
| `SessionTable.Sessions.CloseSession` | src/lib/http-handler.js:235-244 | exactly the one entry with the id is taken out, the others stay in their order, and the table stays well ordered |
| `SessionTable.Sessions.Touch` | src/lib/http-handler.js:272-276 | the entry moves to the end with the new time |
| `SessionTable.Sessions.EvictIdle` | src/lib/http-handler.js:250-258 | an uninterrupted sweep removes exactly the idle entries, and they are a prefix |
| `SessionTable.Sessions.EvictForCapacity` | src/lib/http-handler.js:264-270 | the fewest entries are removed, from the front |
| `Budgets.KeysAreDistinct` | src/lib/data-flow.js:382-384 | window keys are distinct for distinct triples, whatever the principal, as long as no target name holds a colon |
| `Budgets.ColonsCollide` | src/lib/data-flow.js:382-384 | two principals of one issuer and subject, acting as `a::b` and as `a`, share a window on the targets `c` and `b::c` |
| `Budgets.ParsingInvertsKeys` | src/lib/principal-key.js:120-199 | reading a key gives exactly the claimed principal it was made of, and nothing else is read |
| `Budgets.PrincipalsAreDistinct` | src/lib/data-flow.js:95-102 | accepted principals, the local operator included, have one key if and only if they are equal |
| `Budgets.KeyIsWritten` | src/lib/data-flow.js:95-102 | the key of a principal is its three claims with bars between, if each has at most 256 characters, something besides white space, no bar and no character of the class "other"; the local operator has its own |
| `Budgets.TargetsShareExactly` | src/lib/data-flow.js:95-384 | on two targets different principals share a window if and only if the kinds agree, the longer name ends as the shorter one's part of the key does, and what is left over can be the end of a principal's key |
| `Budgets.OtherKeysChangeNothing` | src/lib/data-flow.js:392-404 | what is granted on a key depends on its own calls alone |
| `Budgets.RateBound` | src/lib/data-flow.js:392-404 | in any half-open interval of k windows at most (k + 1) * L is granted, whatever mix of grants and refusals |
| `Budgets.RateBoundIsMet` | src/lib/data-flow.js:392-404 | for every limit, window and k some calls are granted exactly that much |
| `Budgets.RequestCaps` | src/lib/data-flow.js:313-348 | between two counted requests the allowed rows and bytes equal the usage kept and stay within the caps |
| `Budgets.GrantIsExact` | src/lib/data-flow.js:392-404 | after any calls a call is granted if and only if it fits the limit beside what was granted since the key's running window opened |
| `Budgets.BucketIsHistory` | src/lib/data-flow.js:392-404 | the bucket of a key is the sum of its grants since the call that opened its window, and the end of that window |
| `Budgets.KindsHaveTheirLimits` | src/lib/data-flow.js:364-384 | which limit, window length and key each kind takes |
| `Budgets.CapIsExact` | src/lib/data-flow.js:324-333 | after any steps rows and bytes are allowed if and only if they fit the cap beside those allowed since the last counted request |
| `Budgets.RepeatIsExact` | src/lib/data-flow.js:317-322 | a repeat costs nothing and is allowed if and only if something was counted before it |
| `Budgets.WindowedIsExact` | src/lib/data-flow.js:335-348 | any other charge is allowed if and only if its window grants it, and what it leaves of the usage |
| `Budgets.UnboundIsRefused` | src/lib/data-flow.js:313-314 | without a principal or a target nothing is charged |
| `Budgets.Ledger.WindowConsume` | src/lib/data-flow.js:392-404 | the bucket update in place equals the step |
| `Budgets.Ledger.ConsumeBudget` | src/lib/data-flow.js:313-348 | the verdict, the windows and the request's usage equal the step |
| `InFlight.RunKeepsInv` | src/lib/in-flight.js:77-173 | in every reachable state both caps hold, ids are unique, and a call that runs untracked has been told to stop |
| `InFlight.BeginIsExact` | src/lib/in-flight.js:103-131 | begin refuses exactly at a cap and then changes nothing; otherwise it adds one row with an id no call had |
| `InFlight.LateEndIsSilent` | src/lib/in-flight.js:89-93 | after any events a late end of a dropped call removes no row |
| `InFlight.CancelIsExact` | src/lib/in-flight.js:140-160 | cancel drops and aborts exactly the matching rows |
| `InFlight.EmptySelectsNothing` | src/lib/in-flight.js:141-144 | an empty selector matches nothing |
| `InFlight.CapsDoNotBoundRunningCalls` | src/lib/in-flight.js:140-160 | with a cap of one a cancelled call can run on beside the one that took its place |
| `InFlight.TrackedAreTheRunning` | src/lib/in-flight.js:77-173 | over every run the tracked calls are the running ones without those a kill took; they are the same if and only if every call a kill took has ended, and the cap bounds the running calls up to those |
| `InFlight.UnkilledAreTracked` | src/lib/in-flight.js:77-173 | over every run without kills the running calls are the tracked ones and within the cap |
| `InFlight.StopsAreExact` | src/lib/in-flight.js:77-173 | who is told to stop by one event: those it takes from the table, those that follow a signal that fires, one that begins under a fired signal, and nobody else |
| `InFlight.ParentStopsTheCall` | src/lib/in-flight.js:119-131 | over any run a call that follows a signal has been told to stop once that has fired, whatever else happened |
| `InFlight.CancelTakesWhomItNames` | src/lib/in-flight.js:140-160 | a tracked call goes if and only if its principal, its person or its tenant is the one named, an empty name naming none |
| `InFlight.CapsAreAsGiven` | src/lib/in-flight.js:77-84 | the caps are 128 and 16 unless positive ones are given |
| `InFlight.Sweep` | src/lib/in-flight.js:145-159 | one pass computes the rows that stay, the calls to abort and their number |
| `InFlight.Registry.Begin` | src/lib/in-flight.js:103-131 | begin with its counting loop equals the step, and its answer tells whether a cap was hit |
| `InFlight.Registry.Cancel` | src/lib/in-flight.js:140-160 | cancel equals the step, and its answer is the number of rows dropped |
| `InFlight.Registry.Reset` | src/lib/in-flight.js:166-171 | reset aborts every tracked call and empties the table |
| `Dispatch.CallTool` | src/lib/dispatch.js:324-397 | whatever others do meanwhile, on every way out of a call (keys that cannot be made, a cap, a surface that throws, a gate, every kind of error, an error without text, success) its own row is gone, it is not running and nothing else changed; a call that was turned away changed nothing |
| `Dispatch.CallLeavesNoRow` | src/lib/dispatch.js:324-397 | a call on its own leaves the tracked and the running calls as it found them |
| `Dispatch.DenialsLookAlike` | src/lib/dispatch.js:108-397 | a refused principal gets one answer, whatever refused it, and nothing else is answered like that |
| `Dispatch.TranslatesToDenied` | src/lib/dispatch.js:350-377 | exactly the principal denials are answered as such |
| `Dispatch.ServedIsAnswered` | src/lib/dispatch.js:353-357 | a known tool behind open gates answers with what its handler gave, and that is no error |
| `Dispatch.GatesAnswerInOrder` | src/lib/dispatch.js:341-352 | identity, scope and tool name are checked in that order, and the text of each refusal |
| `Dispatch.ErrorsAreWorded` | src/lib/dispatch.js:358-379 | the text and the error flag of each class of error, one of a refused principal alike for all |
| `Dispatch.EarlyEndsArePassedOn` | src/lib/dispatch.js:328-336 | what is thrown before the body is passed on, but for a refused principal |
| `Dispatch.RegistryAfterTracked` | src/lib/dispatch.js:324-397 | what the registry is after a tracked call, row by row |
| `CatalogNotify.BindingIsExact` | src/lib/catalog-notify.js:156-162 | binding makes the server's listens equal the fold of the history if and only if it brings no stale id |
| `CatalogNotify.BoundListens` | src/lib/catalog-notify.js:98-162 | after any further messages the bound server listens to the fold of all the transport heard, and to stale ids not mentioned since |
| `CatalogNotify.BoundIsTheFold` | src/lib/catalog-notify.js:98-162 | in every clean run the bound server's listen set is the fold of the whole history, messages before registration included |
| `CatalogNotify.ReboundServerIsStale` | src/lib/catalog-notify.js:156-162 | a run in which a re-registered server keeps a closed listen |
| `CatalogNotify.AddressedNoteIsNotHeard` | src/lib/catalog-notify.js:138-148 | a note addressed to the bound server itself makes it differ from the transport |
| `CatalogNotify.OthersAreUnaffected` | src/lib/catalog-notify.js:138-182 | no event changes the answer or the session of a server it is not about |
| `CatalogNotify.AnswerIsOwn` | src/lib/catalog-notify.js:172-182 | over any run a session that is never addressed keeps its answer |
| `CatalogNotify.ReachIsExact` | src/lib/catalog-notify.js:172-182 | after any run a change reaches a session if and only if its last version is an old one, it is sent changes unsolicited, it has an open listen, or it is bound to the transport and that has one; each told from the events |
| `CatalogNotify.LiveAreRegistered` | src/lib/catalog-notify.js:238-252 | after any run exactly the servers whose last event is their registration are live |
| `CatalogNotify.ApplyIsExact` | src/lib/catalog-notify.js:98-125 | what each message does to a session that hears it |
| `CatalogNotify.ModernStaysModern` | src/lib/catalog-notify.js:99-162 | over any run in which a server keeps a modern version it becomes unsolicited exactly by being bound to a transport that holds an old-style initialize, and by no initialize of its own or another server |
| `CatalogNotify.ModernServerTakesOver` | src/lib/catalog-notify.js:156-182 | a run in which a modern server takes one over and counts as reachable without a listen |
| `CatalogNotify.PendingIsEmitted` | src/lib/catalog-notify.js:360-389 | in every run at most one timer is armed, exactly while something is pending, and what is pending is what was emitted since the last dispatch |
| `CatalogNotify.DispatchIsUnion` | src/lib/catalog-notify.js:360-370 | a flush or firing dispatches exactly the union of the kinds emitted since the last one, or nothing |
| `CatalogNotify.Catalog.ApplyMessage` | src/lib/catalog-notify.js:98-125 | one message applied to a session equals the step |
| `CatalogNotify.Catalog.NoteInbound` | src/lib/catalog-notify.js:138-148 | a message goes to the named server, or to the held state and the bound server |
| `CatalogNotify.Catalog.RegisterLive` | src/lib/catalog-notify.js:238-252 | registering equals the step, binding included |
| `CatalogNotify.Notifier.Emit` | src/lib/catalog-notify.js:379-389 | emit equals the step |
| `CatalogNotify.Notifier.Flush` | src/lib/catalog-notify.js:360-370 | flush equals the step |
| `CatalogNotify.Notifier.TimerFires` | src/lib/catalog-notify.js:384-387 | a firing timer equals the step |
| `ErrorData.BoundText` | src/lib/error-body.js:134-138 | a text within the bound is kept, a longer one is cut and marked, and the result exceeds the bound by the mark at most |
| `ErrorData.BoundTextTwice` | src/lib/error-body.js:134-138 | cutting twice is cutting once |
| `ErrorData.CutIsExact` | src/lib/error-body.js:134-138 | when a text is kept, when it counts as cut before, and what it is cut to |
| `ErrorData.StripTags` | src/lib/error-body.js:40-48 | the loop ends with what repeated passes and the last replacement give: no bracket is left, nothing is added or moved, and a text without brackets is not touched |
| `ErrorData.TextStays` | src/lib/error-body.js:45-45 | one pass keeps what is before the first "<" and goes on there |
| `ErrorData.TagIsRemoved` | src/lib/error-body.js:45-45 | it takes away all from a "<" to the next ">", and goes on behind it |
| `ErrorData.OpenBracketStays` | src/lib/error-body.js:45-45 | a "<" that no ">" follows stays, and so does all after it |
| `ErrorData.StrippingRepeats` | src/lib/error-body.js:43-47 | the passes are repeated until one does nothing |
| `ErrorData.BracketsAreDropped` | src/lib/error-body.js:47-47 | in the end each bracket goes, and no other character |
| `ErrorData.CleanErrorDataIsBounded` | src/lib/error-body.js:264-325 | for every tree: at most six levels, fifty entries and one marker each with distinct bounded keys, and text of at most 4000 characters and one suffix besides markers |
| `ErrorData.SpentBudgetKeepsNothing` | src/lib/error-body.js:300-305 | once the budget is used up every further string is empty or the marker |
| `ErrorData.CleanErrorDataKeepsTidy` | src/lib/error-body.js:276-325 | a clean payload within the bounds comes out as it went in |
| `ErrorData.TextIsExact` | src/lib/error-body.js:300-305 | a text gets 400 characters or what is left of the budget, which it then lowers; with none left it is empty or the mark |
| `ErrorData.PlainIsExact` | src/lib/error-body.js:306-308 | what becomes of null, truth values, numbers and anything else |
| `ErrorData.ListIsExact` | src/lib/error-body.js:309-315 | a list six levels deep is the mark; of any other the first fifty items are cleaned, with a mark for the rest |
| `ErrorData.ObjectIsExact` | src/lib/error-body.js:309-325 | an object likewise, the rest marked by an entry |
| `ErrorData.EntriesInTurn` | src/lib/error-body.js:318-322 | each entry is cleaned in turn under at most a hundred characters of its key, unless that is empty or taken |
| `ErrorData.CleanErrorNode` | src/lib/error-body.js:299-325 | the recursive walk with its shared, decremented budget equals the function the bounds are proved about |
| `ErrorData.CleanItems` | src/lib/error-body.js:311-315 | the items of a list are cleaned in order from the shared budget |
| `ErrorData.CleanEntries` | src/lib/error-body.js:316-322 | the entries of an object likewise, an empty or repeated key skipped with its value |
| `GraphqlErrors.MarkerIsRead` | src/lib/error-body.js:352-434 | the count that is printed is the count that is read back |
| `GraphqlErrors.CountIsExact` | src/lib/error-body.js:352-352 | a message counts exactly if it is digits and then the words |
| `GraphqlErrors.CarriedIsExact` | src/lib/error-body.js:419-421 | only a record with a text message in the last place is read as a count |
| `GraphqlErrors.OneIsCleaned` | src/lib/error-body.js:360-362 | the message of one error, or the words for none |
| `GraphqlErrors.RoomIsExact` | src/lib/error-body.js:426-430 | the first error has room; further ones up to fifty, while the messages together have at most 4000 characters |
| `GraphqlErrors.CleanGraphqlErrors` | src/lib/error-body.js:411-435 | the loop and its last entry equal the function the theorems are about |
| `GraphqlErrors.KeepPrefix` | src/lib/error-body.js:424-431 | the loop keeps, cleaned, exactly the errors before the first without room |
| `GraphqlErrors.KeptIsBounded` | src/lib/error-body.js:424-434 | at most fifty errors and 4000 characters are kept, unless one error alone is longer |
| `GraphqlErrors.KeptIsMaximal` | src/lib/error-body.js:426-431 | the first error left out had no room |
| `GraphqlErrors.FittingIsKept` | src/lib/error-body.js:424-431 | a list is kept whole if and only if it has at most fifty errors and, when more than one, 4000 characters once cleaned |
| `GraphqlErrors.CleaningConserves` | src/lib/error-body.js:411-435 | kept and dropped make up what the input stood for, and the output stands for as many if and only if the input does not end with a message that is no count, fits, and cleaned reads as a count other than one |
| `GraphqlErrors.CountTextIsMiscounted` | src/lib/error-body.js:419-422 | a single text that reads as a count of n comes out standing for n errors |
| `GraphqlErrors.CleaningIsStable` | src/lib/error-body.js:402-435 | cleaning again returns the output, if and only if the input does not end so, or its last entry cleaned is the very count that would be written, with no other fields |
| `GraphqlErrors.StableAndConserving` | src/lib/error-body.js:402-435 | both promises for an idempotent cleaner that makes no counts |
| `LinkPool.TruncatedIsExact` | src/lib/link-checker.js:121-123 | the flag tells whether a URL was left out, if and only if the ceiling is not negative or there are URLs |
| `LinkPool.StepKeepsInv` | src/lib/link-checker.js:131-167 | every step keeps each taken index with one worker or listed once, and its requests explained |
| `LinkPool.InFlightIsCapped` | src/lib/link-checker.js:137-138 | at most max(1, min(maxConcurrency, queue)) checks are in flight under every interleaving |
| `LinkPool.ResultsAreComplete` | src/lib/link-checker.js:131-140 | when all workers left, each index has exactly one result, explained by the requests and answers for it |
| `LinkPool.OnlyPassingAreFetched` | src/lib/link-checker.js:151-167 | nothing is sent for a URL that a gate refuses, at any time |
| `LinkPool.OnlyAllowedAreFetched` | src/lib/link-checker.js:151-158 | in every run a request goes only to a URL that the guard finds safe and whose host, in lower case, is in the allowlist |
| `LinkPool.ResultsAreVerdicts` | src/lib/link-checker.js:131-185 | when all workers left, each URL has one result and it is the verdict by guard, allowlist and status range, with its reason written out |
| `LinkPool.AnswersAreKept` | src/lib/link-checker.js:161-166 | the answers a result is explained by are those that came, in order |
| `LinkPool.WorkersAreExact` | src/lib/link-checker.js:137-137 | the number of workers by cases |
| `LinkPool.UniqueKeepsOrder` | src/lib/link-checker.js:121-121 | the queue is in the order of first occurrence |
| `LinkPool.QueueLength` | src/lib/link-checker.js:121-123 | how many URLs are queued, for a negative ceiling too |
| `LinkPool.StepMakesProgress` | src/lib/link-checker.js:131-136 | every step lowers what is left to do |
| `LinkPool.RunsAreShort` | src/lib/link-checker.js:131-138 | no run is longer than three steps per URL and one per worker |
| `LinkPool.WorkersAreNotStuck` | src/lib/link-checker.js:131-136 | a worker that has not left has a step once its answer is there |
| `LinkPool.Pool.constructor` | src/lib/link-checker.js:118-137 | duplicates are removed in order, the queue is cut, and the workers are counted |
| `LinkPool.Pool.TakeNext` | src/lib/link-checker.js:132-134 | the loop test and the start of a check equal the step |
| `LinkPool.Pool.OnHead` | src/lib/link-checker.js:161-166 | a HEAD answer settles the check or asks again with GET |
| `LinkPool.Pool.PushResult` | src/lib/link-checker.js:134-135 | the result is listed and the next URL taken |
| `RevocationList.CacheIsCoherent` | src/lib/http-auth.js:619-653 | in every run the answer equals one reading of the file now, if equal modification times mean equal contents; a file that is missing or may not be looked at, and no path, revoke nothing |
| `RevocationList.FailsClosedExactly` | src/lib/http-auth.js:619-653 | in every run the answer is the fail-closed one if and only if there is no path, or the file may be looked at and holds no number, truth value or array (`null` and a text fail closed, as what cannot be parsed) |
| `RevocationList.UnreadableIsNotWritten` | src/lib/http-auth.js:662-695 | the files counted as unreadable are exactly those a revoke refuses or throws on |
| `RevocationList.DeniedStatFailsOpen` | src/lib/http-auth.js:624-674 | a file that may not be looked at revokes nothing, while a revoke is refused |
| `RevocationList.DeniedStatForgets` | src/lib/http-auth.js:624-629 | a listed id is no longer revoked once the file may not be looked at |
| `RevocationList.SameTimeHidesAWrite` | src/lib/http-auth.js:630-630 | a write under the same modification time is not seen |
| `RevocationList.RevokeOutcome` | src/lib/http-auth.js:662-695 | revoke succeeds, refuses and throws exactly when stated |
| `RevocationList.RevokeTakesEffect` | src/lib/http-auth.js:689-702 | after a revoke exactly the earlier ids and the trimmed one are revoked |
| `RevocationList.RevokedAsGiven` | src/lib/http-auth.js:647-663 | the id as given is revoked if and only if it equals its trim, or was listed |
| `Common.TrimIsExact` | src/lib/http-auth.js:663-663 | what a trim takes away is the white space at both ends, all of it and nothing else |
| `RevocationList.RevokedStays` | src/lib/http-auth.js:647-703 | until an outside write whatever is revoked stays revoked over any run |
| `RevocationList.Store.LoadCache` | src/lib/http-auth.js:621-644 | loading equals the function |
| `RevocationList.Store.AskRevoked` | src/lib/http-auth.js:647-653 | the answer and the cache equal the step |
| `RevocationList.Store.RevokeId` | src/lib/http-auth.js:662-703 | the reply, the file and the cache equal the step |
| `ErrRelationships.ResolveKeepsAll` | src/lib/err-relationships.js:264-308 | a returned map keeps fields, order, lengths and clears, copies other references, gives every paragraph a number, and took at most one read each; otherwise the failures are returned alone |
| `ErrRelationships.OneIsKept` | src/lib/err-relationships.js:188-250 | one resolved reference is kept, its number is in the cache, and no paragraph in the cache is read |
| `ErrRelationships.FailuresAreNamed` | src/lib/err-relationships.js:264-308 | a map is refused if and only if some reference is none, or is a paragraph that at its turn neither has a number nor is given one by the cache or its read; and then exactly with these, in order |
| `ErrRelationships.NumbersAreDue` | src/lib/err-relationships.js:188-250 | in a returned map the number of each paragraph without its own is the one of the latest earlier reference to that id, else the caller's cache entry, else the revision this run read; nothing is read that was known; and the cache then knows all of them |
| `ErrRelationships.ResolvingIsIdempotent` | src/lib/err-relationships.js:264-308 | resolving a result again reads nothing and returns it equal, with any cache |
| `ErrRelationships.CopyIsEqualExactly` | src/lib/err-relationships.js:171-175 | a copied reference equals the given one if and only if it has no further keys and its meta is no plain value |
| `ErrRelationships.UnchangedExactly` | src/lib/err-relationships.js:264-308 | a returned map equals the given one if and only if each reference is such, and each paragraph already has a number |
| `ErrRelationships.NodeReferenceLosesKeys` | src/lib/err-relationships.js:171-202 | a node reference with one more key is returned without it |
| `ErrRelationships.ResolvableMapsResolve` | src/lib/err-relationships.js:264-308 | if every reference can be resolved the map is returned |
| `ErrRelationships.Resolver.ResolveOneIdentifier` | src/lib/err-relationships.js:188-250 | one identifier with its effects on cache, reads and failures equals the function |
| `ErrRelationships.Resolver.ResolveList` | src/lib/err-relationships.js:288-291 | the loop over a list equals the function |
| `ErrRelationships.Resolver.ResolveErrRelationships` | src/lib/err-relationships.js:264-308 | the whole loop equals the function, and on a failure nothing but the failures is returned |

## Left out

- Sockets, HTTP, TLS, signals, stdin and real timers: steps and clocks stand for them. `JSON.parse` of a frame that throws inside the reader is not modelled, nor is a target that cannot be resolved during a hello.
- JSON, URL and IP parsing, hashing, tokens and UUID generation: texts, fresh ids and uninterpreted functions stand for them.
- Class methods of asynchronous code are modelled one atomic step each; the interleaving is in the state machines.
- `readUpdateTarget`, `resolveCanonicalDraftIdentity` and the preflight-only entry point of the canonical draft: they only read.
- The server-side nested replacement: `NestedClient.Client.DraftNestedComponents` ends with `OnServer` where the program takes that route.
- The shape checks of the raw nested request and the text formats of new paragraphs: the model starts from the normalized request, whose ids are UUIDs.
- Attribute values and references are opaque texts, so `sameAttributes` and `sameRelationships` are equality of them; which keys are copied is not modelled.
- NestedDraft.PinnedAreNotWritten: holds as far as the ids the backend reports are new; `NestedDraft.EchoedIdIsWritten` shows that this is needed.
- RevisionStore.RevisionsOnlyAdvance: judges an uncertain write by the draft it left; the exact condition is stated for the paragraphs, not for their revisions.
- The order in which two sorted name lists are compared: field names are compared as sets.
- JavaScript numbers beyond their exact range: counts and revisions are mathematical integers, limits and quantities real numbers.
- The default values of the window limits, the `reject` mode of the legacy handler and responses to unknown methods: simple branches.
- The test-only guards of the in-flight registry: both are on.
- How a token's claims give the actor, and which error names a bad part of a principal key. The characters Unicode files under "other" are a parameter of `Budgets.TargetsShareExactly`, which needs that visible ASCII is not among them.
- What the gates before a tool's handler look at: in `Dispatch` their outcome is an input, and so is the handler's.
- `emitIfCatalogAdvertisementChanged`, subscribers, modern notifiers and the sending of a dispatched event.
- The regular expressions of `cleanErrorText`, `joinCleanDetails` and `describeErrorBody`: `Scrub` and `Cleaner` stand for the cleaning of one text. The real cleaner is not idempotent, which is a premise of `GraphqlErrors.CleaningIsStable`.
- The order of integer-like keys in a cleaned object, and the fields of a GraphQL error besides its message.
- The address ranges of `isPrivateIp`: the guard is a function of the URL.
- Files that change between the two calls of one load, and a failed write that leaves a part behind; other keys of the revocation file, which a revoke drops.
- A relationships value that is no map: the program returns it as it is.
