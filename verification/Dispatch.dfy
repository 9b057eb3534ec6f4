/**
 * One tool call from its entry to its answer: tracked while it runs, its errors put into answers, and its row released
 * on every way out. What other requests do to the registry meanwhile is any sequence of events.
 */
module Dispatch {
  import opened Common
  import opened InFlight

  const PRINCIPAL_REFUSAL := "A verified principal context is required."

  /** An `Unprintable` value has no text: putting it into an answer throws in turn. */
  datatype Kind = Governance | Security | Capability | Resolution | OtherError | Unprintable

  /** What an error names as its cause or reason. */
  datatype Cause = NoCause | SecurityCause(message: string) | TextCause(text: string) | OtherCause

  datatype Thrown = Thrown(kind: Kind, message: string, cause: Cause)

  datatype Envelope = Envelope(text: string, isError: bool)

  datatype Outcome = Answered(envelope: Envelope) | Threw(error: Thrown)

  const PRINCIPAL_DENIED := Thrown(Security, PRINCIPAL_REFUSAL, NoCause)

  const DENIED := Answered(Envelope("Access denied: " + PRINCIPAL_REFUSAL, true))

  predicate IsPrincipalDenial(error: Thrown) {
    || error.message == PRINCIPAL_REFUSAL
    || error.cause == SecurityCause(PRINCIPAL_REFUSAL)
    || error.cause == TextCause(PRINCIPAL_REFUSAL)
  }

  /** The error as an answer. */
  function Translate(error: Thrown): Outcome {
    if IsPrincipalDenial(error) then DENIED
    else match error.kind
      case Governance => Answered(Envelope("Source governance unavailable: " + error.message, true))
      case Security => Answered(Envelope("Access denied: " + error.message, true))
      case Capability => Answered(Envelope("Not supported by this site's backend: " + error.message, true))
      case Resolution => Answered(Envelope("Backend resolution failed: " + error.message, true))
      case OtherError => Answered(Envelope("Error: " + error.message, true))
      case Unprintable => Threw(error)
  }

  /**
   * What a call meets: the keys its identity gives (none for the local operator and for a principal without a key),
   * the surface when it is resolved for a tracked call, what the gates before the handler see, and what the governed
   * handler gives.
   */
  datatype Call = Call(
    name: string,
    keys: Result<Option<Keys>, Thrown>,
    surface: Result<(), Thrown>,
    network: bool,
    identified: bool,
    scopeDenial: Option<string>,
    known: bool,
    governed: Result<string, Thrown>)

  function UnknownTool(name: string): Envelope {
    var text := "Unknown tool \"" + name + "\". Call drupal_list_entity_types to discover available resources.";
    Envelope("Error: " + text, true)
  }

  /** The body of the call: the gates in order, then the governed handler. */
  function Invoked(call: Call): Outcome {
    if call.network && !call.identified then
      Translate(Thrown(Security, "Unauthenticated network request.", NoCause))
    else if call.network && call.scopeDenial.Some? then
      Translate(Thrown(Security, call.scopeDenial.value, NoCause))
    else if !call.known then
      Answered(UnknownTool(call.name))
    else match call.governed
      case Ok(text) => Answered(Envelope(text, false))
      case Err(error) => Translate(error)
  }

  /** The call is entered into the table. */
  predicate IsTracked(limits: Limits, s: State, call: Call) {
    call.keys.Ok? && call.keys.value.Some? && !AtCap(limits, s, call.keys.value.value)
  }

  /** The call ends before anything else can happen: its keys cannot be made, or a cap is hit. */
  predicate IsTurnedAway(limits: Limits, s: State, call: Call) {
    call.keys.Ok? ==> call.keys.value.Some? && AtCap(limits, s, call.keys.value.value)
  }

  /** The registry when the body of the call is over. */
  function Before(limits: Limits, s: State, call: Call, meanwhile: seq<Event>): State {
    if IsTurnedAway(limits, s, call) then s
    else if IsTracked(limits, s, call) then
      Run(limits, Step(limits, s, Begin(call.keys.value.value, None)), meanwhile)
    else Run(limits, s, meanwhile)
  }

  /** The answer that the call must give. */
  function Expected(limits: Limits, s: State, call: Call): Outcome {
    match call.keys
    case Err(error) => if IsPrincipalDenial(error) then DENIED else Threw(error)
    case Ok(None) => Invoked(call)
    case Ok(Some(keys)) =>
      if AtCap(limits, s, keys) then DENIED
      else if call.surface.Err? then Threw(call.surface.error)
      else Invoked(call)
  }

  /** After the call: on every way out its own row is gone and nothing else is. */
  ghost predicate Released(limits: Limits, s: State, call: Call, meanwhile: seq<Event>, s': State) {
    var before := Before(limits, s, call, meanwhile);
    if !IsTracked(limits, s, call) then s' == before
    else
      && s.last + 1 !in IdsOf(s'.rows) && s.last + 1 !in s'.open
      && s'.open == before.open - {s.last + 1}
      && (forall row :: row in s'.rows <==> row in before.rows && row.id != s.last + 1)
      && s'.last == before.last && s'.aborted == before.aborted && s'.parents == before.parents
      && s'.fired == before.fired
  }

  /** Others use the registry. */
  method Others(registry: Registry, events: seq<Event>)
    modifies registry
    ensures registry.Now() == Run(registry.limits, old(registry.Now()), events)
  {
    hide Step, Registry.Now;
    for i := 0 to |events|
      invariant registry.Now() == Run(registry.limits, old(registry.Now()), events[..i])
    {
      assert events[..i + 1][..i] == events[..i];
      match events[i] {
        case Begin(keys, parent) => var _ := registry.Begin(keys, parent);
        case End(id) => registry.End(id);
        case Cancel(selector) => var _ := registry.Cancel(selector);
        case Reset => registry.Reset();
        case Fire(signal) => registry.ParentFires(signal);
      }
    }
    assert events[..|events|] == events;
  }

  /** Serve one tool call, while others use the registry as `meanwhile` says. */
  method CallTool(registry: Registry, call: Call, meanwhile: seq<Event>) returns (outcome: Outcome)
    requires Inv(registry.limits, registry.Now()) && registry.limits.cap > 0 && registry.limits.perPrincipal > 0
    modifies registry
    ensures Inv(registry.limits, registry.Now())
    ensures Released(registry.limits, old(registry.Now()), call, meanwhile, registry.Now())
    ensures outcome == Expected(registry.limits, old(registry.Now()), call)
  {
    hide Inv, Step, Released;
    ghost var limits, s := registry.limits, registry.Now();
    if call.keys.Err? {
      UntrackedIsReleased(limits, s, call, meanwhile);
      return if IsPrincipalDenial(call.keys.error) then DENIED else Threw(call.keys.error);
    }
    var flight := None;
    if call.keys.value.Some? {
      flight := registry.Begin(call.keys.value.value, None);
      if flight.None? {
        BeginRefused(limits, s, call.keys.value.value);
        UntrackedIsReleased(limits, s, call, meanwhile);
        return if IsPrincipalDenial(PRINCIPAL_DENIED) then DENIED else Threw(PRINCIPAL_DENIED);
      }
    }
    Others(registry, meanwhile);
    if flight.Some? {
      outcome := if call.surface.Err? then Threw(call.surface.error) else Invoked(call);
      registry.End(flight.value);
      EndReleases(limits, s, call, meanwhile);
    } else {
      outcome := Invoked(call);
      RunsKeepInv(limits, s, meanwhile);
      UntrackedIsReleased(limits, s, call, meanwhile);
    }
  }

  lemma BeginRefused(limits: Limits, s: State, keys: Keys)
    requires AtCap(limits, s, keys)
    ensures Step(limits, s, Begin(keys, None)) == s
  {}

  lemma UntrackedIsReleased(limits: Limits, s: State, call: Call, meanwhile: seq<Event>)
    requires !IsTracked(limits, s, call)
    ensures Released(limits, s, call, meanwhile, Before(limits, s, call, meanwhile))
  {}

  lemma EndReleases(limits: Limits, s: State, call: Call, meanwhile: seq<Event>)
    requires Inv(limits, s) && limits.cap > 0 && limits.perPrincipal > 0 && IsTracked(limits, s, call)
    ensures var s' := Step(limits, Before(limits, s, call, meanwhile), End(s.last + 1));
      Inv(limits, s') && Released(limits, s, call, meanwhile, s')
  {
    hide Inv, Run, Without, Selects, AtCap;
    var began := Step(limits, s, Begin(call.keys.value.value, None));
    StepKeepsInv(limits, s, Begin(call.keys.value.value, None));
    RunsKeepInv(limits, began, meanwhile);
    var before := Before(limits, s, call, meanwhile);
    StepKeepsInv(limits, before, End(s.last + 1));
    RestAre(before.rows, ById(s.last + 1));
    ByIdSelects(s.last + 1);
  }

  /** Keys that could not be built: nothing else is asked of the registry meanwhile, and it is as before. */
  lemma RegistryWithoutKeys(limits: Limits, s: State, call: Call, meanwhile: seq<Event>, s': State)
    requires call.keys.Err?
    ensures Released(limits, s, call, meanwhile, s') <==> s' == s
  {
    hide Run, Step, CountKey, IdsOf;
  }

  /** An exempt call has no row: the registry has done what the others asked of it. */
  lemma RegistryAfterExempt(limits: Limits, s: State, call: Call, meanwhile: seq<Event>, s': State)
    requires call.keys.Ok? && call.keys.value.None?
    ensures Released(limits, s, call, meanwhile, s') <==> s' == Run(limits, s, meanwhile)
  {
    hide Run, Step, CountKey, IdsOf;
  }

  /** A call refused at a cap changes nothing; any other leaves no trace but its number and what stopped it. */
  lemma RegistryAfterTracked(limits: Limits, s: State, call: Call, keys: Keys, meanwhile: seq<Event>, s': State)
    requires call.keys == Ok(Some(keys))
    ensures var refused :=
        |s.rows| >= limits.cap || (keys.principal != "" && CountKey(s.rows, keys.principal) >= limits.perPrincipal);
      var id, last := s.last + 1, Run(limits, Step(limits, s, Begin(keys, None)), meanwhile);
      Released(limits, s, call, meanwhile, s') <==>
        (if refused then s' == s
         else
           && (forall row :: row in s'.rows <==> row in last.rows && row.id != id)
           && id !in IdsOf(s'.rows) && id !in s'.open
           && s'.open == last.open - {id} && s'.last == last.last && s'.aborted == last.aborted
           && s'.parents == last.parents && s'.fired == last.fired)
  {
    hide Run, Step, CountKey, IdsOf;
  }

  /** A call on its own leaves the table and the running calls as it found them. */
  lemma CallLeavesNoRow(limits: Limits, s: State, call: Call, s': State)
    requires Inv(limits, s) && Released(limits, s, call, [], s')
    ensures (forall row :: row in s'.rows <==> row in s.rows) && s'.open == s.open && s'.aborted == s.aborted
  {
    hide CountKey, Capped, Increasing;
    if IsTracked(limits, s, call) {
      var began := Step(limits, s, Begin(call.keys.value.value, None));
      assert Run(limits, began, []) == began;
    }
  }

  /** The error that the body of the call ends with, when it ends with one. */
  function Met(call: Call): Option<Thrown> {
    if call.network && !call.identified then Some(Thrown(Security, "Unauthenticated network request.", NoCause))
    else if call.network && call.scopeDenial.Some? then Some(Thrown(Security, call.scopeDenial.value, NoCause))
    else if call.known && call.governed.Err? then Some(call.governed.error)
    else None
  }

  /**
   * A refused principal gets one answer, whatever refused it: its keys, a cap, a gate, or a kill that the governed
   * handler ran into. Nothing else is answered like that.
   */
  lemma DenialsLookAlike(limits: Limits, s: State, call: Call)
    ensures Expected(limits, s, call) == DENIED <==>
      if call.keys.Err? then IsPrincipalDenial(call.keys.error)
      else
        || (call.keys.value.Some? && AtCap(limits, s, call.keys.value.value))
        || ((call.keys.value.Some? ==> call.surface.Ok?) && Met(call).Some? && IsPrincipalDenial(Met(call).value))
  {
    hide AtCap, Translate, IsPrincipalDenial;
    assert DENIED.envelope.text[0] == 'A' && UnknownTool(call.name).text[0] == 'E';
    if Met(call).Some? { TranslatesToDenied(Met(call).value); }
  }

  /** Exactly the principal denials are answered as such. */
  lemma TranslatesToDenied(error: Thrown)
    ensures Translate(error) == DENIED <==> IsPrincipalDenial(error)
  {
    var prefix := "Access denied: ";
    assert DENIED.envelope.text[0] == 'A';
    if error.kind.Security? && Translate(error) == DENIED {
      assert error.message == (prefix + error.message)[|prefix|..];
      assert PRINCIPAL_REFUSAL == (prefix + PRINCIPAL_REFUSAL)[|prefix|..];
    }
  }

  // ----- what a call is answered, in so many words -----

  /** The call gets as far as its body: keys could be made, no cap is hit, and the surface is known. */
  predicate IsAdmitted(limits: Limits, s: State, call: Call) {
    && call.keys.Ok?
    && (call.keys.value.Some? ==> call.surface.Ok? && !AtCap(limits, s, call.keys.value.value))
  }

  /** A known tool behind open gates answers with what its handler gave, and that is no error. */
  lemma ServedIsAnswered(limits: Limits, s: State, call: Call, text: string)
    requires IsAdmitted(limits, s, call) && call.known && call.governed == Ok(text)
    requires !call.network || (call.identified && call.scopeDenial == None)
    ensures Expected(limits, s, call) == Answered(Envelope(text, false))
  {}

  lemma SecurityIsWorded(message: string)
    ensures Translate(Thrown(Security, message, NoCause)) == Answered(Envelope("Access denied: " + message, true))
  {}

  /** The gates before the handler, in order, whatever comes after each. */
  lemma GatesAnswerInOrder(limits: Limits, s: State, call: Call)
    requires IsAdmitted(limits, s, call)
    ensures call.network && !call.identified ==>
              Expected(limits, s, call)
              == Answered(Envelope("Access denied: " + "Unauthenticated network request.", true))
    ensures call.network && call.identified && call.scopeDenial.Some? ==>
              Expected(limits, s, call) == Answered(Envelope("Access denied: " + call.scopeDenial.value, true))
    ensures (!call.network || (call.identified && call.scopeDenial == None)) && !call.known ==>
              Expected(limits, s, call) == Answered(Envelope("Error: " + ("Unknown tool \"" + call.name
                + "\". Call drupal_list_entity_types to discover available resources."), true))
  {
    SecurityIsWorded("Unauthenticated network request.");
    if call.scopeDenial.Some? { SecurityIsWorded(call.scopeDenial.value); }
    hide AtCap, Translate;
  }

  /** An error of the governed call is put into words by its class; one of a refused principal reads alike for all. */
  lemma ErrorsAreWorded(limits: Limits, s: State, call: Call, error: Thrown)
    requires IsAdmitted(limits, s, call) && call.known && call.governed == Err(error)
    requires !call.network || (call.identified && call.scopeDenial == None)
    ensures Expected(limits, s, call) ==
      var refusal := "A verified principal context is required.";
      if error.message == refusal || error.cause == SecurityCause(refusal) || error.cause == TextCause(refusal) then
        Answered(Envelope("Access denied: " + refusal, true))
      else
        match error.kind
        case Governance => Answered(Envelope("Source governance unavailable: " + error.message, true))
        case Security => Answered(Envelope("Access denied: " + error.message, true))
        case Capability => Answered(Envelope("Not supported by this site's backend: " + error.message, true))
        case Resolution => Answered(Envelope("Backend resolution failed: " + error.message, true))
        case OtherError => Answered(Envelope("Error: " + error.message, true))
        case Unprintable => Threw(error)
  {
    hide AtCap;
  }

  /** What is thrown before the body is passed on, but for a refused principal; a cap reads as one. */
  lemma EarlyEndsArePassedOn(limits: Limits, s: State, call: Call)
    ensures call.keys.Err? && !IsPrincipalDenial(call.keys.error) ==>
              Expected(limits, s, call) == Threw(call.keys.error)
    ensures call.keys.Ok? && call.keys.value.Some? && AtCap(limits, s, call.keys.value.value) ==>
              Expected(limits, s, call)
              == Answered(Envelope("Access denied: " + "A verified principal context is required.", true))
    ensures call.keys.Ok? && call.keys.value.Some? && !AtCap(limits, s, call.keys.value.value) && call.surface.Err? ==>
              Expected(limits, s, call) == Threw(call.surface.error)
  {
    hide AtCap, Invoked, IsPrincipalDenial;
  }
}
