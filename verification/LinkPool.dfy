/**
 * The link checker's pool: workers share a cursor over the queue, and each holds one check at a time. Whatever a worker
 * does between two awaits is one step; the network decides the order of the answers and the answers themselves.
 */
module LinkPool {
  import opened Common

  type Url = string

  // ----- the queue -----

  function Unique(urls: seq<Url>): (r: seq<Url>)
    ensures |r| <= |urls|
    ensures forall url :: url in r <==> url in urls
    ensures forall i, j :: 0 <= i < j < |r| ==> r[i] != r[j]
  {
    if urls == [] then []
    else
      var front, last := Unique(urls[..|urls| - 1]), urls[|urls| - 1];
      assert forall url :: url in urls <==> url in urls[..|urls| - 1] || url == last;
      if last in front then front else front + [last]
  }

  /** How many elements `slice(0, n)` takes; a negative end counts from the back. */
  function SliceEnd(n: int, length: nat): (k: nat)
    ensures k <= length
  {
    if n >= length then length else if n >= 0 then n else if length + n > 0 then length + n else 0
  }

  function Queue(urls: seq<Url>, maxLinks: int): seq<Url> {
    Unique(urls)[..SliceEnd(maxLinks, |Unique(urls)|)]
  }

  predicate Truncated(urls: seq<Url>, maxLinks: int) { |Unique(urls)| > maxLinks }

  /** What is queued is in the order of first occurrence, as much of it as the ceiling says. */
  lemma {:induction false} UniqueKeepsOrder(urls: seq<Url>, i: nat, j: nat)
    requires i < j < |Unique(urls)|
    ensures FirstAt(urls, Unique(urls)[i]) < FirstAt(urls, Unique(urls)[j]) < |urls|
  {
    var front, last := urls[..|urls| - 1], urls[|urls| - 1];
    assert urls == front + [last];
    FirstInLonger(front, last, Unique(urls)[i]);
    FirstInLonger(front, last, Unique(urls)[j]);
    if j < |Unique(front)| { UniqueKeepsOrder(front, i, j); }
    FirstIsThere(front, Unique(urls)[i]);
    FirstIsThere(front, last);
  }

  /** The place of the first occurrence, or the length. */
  function FirstAt(urls: seq<Url>, url: Url): (k: nat)
    ensures k <= |urls|
  {
    if urls == [] || urls[0] == url then 0 else 1 + FirstAt(urls[1..], url)
  }

  lemma {:induction false} FirstIsThere(urls: seq<Url>, url: Url)
    ensures FirstAt(urls, url) < |urls| <==> url in urls
  {
    if urls != [] && urls[0] != url {
      FirstIsThere(urls[1..], url);
      assert urls == [urls[0]] + urls[1..];
    }
  }

  lemma {:induction false} FirstInLonger(urls: seq<Url>, last: Url, url: Url)
    ensures FirstAt(urls + [last], url)
         == if url in urls then FirstAt(urls, url) else if url == last then |urls| else |urls| + 1
  {
    if urls == [] {
      assert [] + [last] == [last] && [last][1..] == [];
    } else {
      FirstInLonger(urls[1..], last, url);
      assert (urls + [last])[1..] == urls[1..] + [last];
      assert urls == [urls[0]] + urls[1..];
    }
  }

  /** So many URLs are queued: up to a ceiling, or all but the last few for a negative one. */
  lemma QueueLength(urls: seq<Url>, maxLinks: int)
    ensures var n, k := |Unique(urls)|, |Queue(urls, maxLinks)|;
      && (0 <= maxLinks <= n ==> k == maxLinks) && (maxLinks > n ==> k == n)
      && (-n <= maxLinks < 0 ==> k == n + maxLinks) && (maxLinks < -n ==> k == 0)
      && Queue(urls, maxLinks) == Unique(urls)[..k]
  {}

  /** As many workers as the limit says, but no more than there are URLs, and at least one. */
  lemma WorkersAreExact(maxConcurrency: int, queued: nat)
    ensures var n := Workers(maxConcurrency, queued);
      && (1 <= maxConcurrency <= queued ==> n == maxConcurrency)
      && (1 <= queued < maxConcurrency ==> n == queued)
      && (maxConcurrency < 1 || queued == 0 ==> n == 1)
  {}

  /** The flag tells whether a URL was left out, except for a negative ceiling over an empty list. */
  lemma TruncatedIsExact(urls: seq<Url>, maxLinks: int)
    ensures (Truncated(urls, maxLinks) <==> Queue(urls, maxLinks) != Unique(urls)) <==>
            maxLinks >= 0 || Unique(urls) != []
  {
    assert |Queue(urls, maxLinks)| == SliceEnd(maxLinks, |Unique(urls)|);
    if SliceEnd(maxLinks, |Unique(urls)|) == |Unique(urls)| {
      assert Queue(urls, maxLinks) == Unique(urls);
    }
  }

  function Max(a: int, b: int): int { if a >= b then a else b }

  function Workers(maxConcurrency: int, queued: nat): (n: nat)
    ensures n >= 1
  {
    Max(1, if maxConcurrency <= queued then maxConcurrency else queued)
  }

  // ----- one check -----

  /** The verdict of the address guard: a refusal, or the host to look for in the allowlist. */
  datatype Guard = Unsafe(reason: string) | Safe(host: string)

  /** `allow` holds lower-case hosts; `lower` is the text in lower case. */
  datatype Policy = Policy(guard: Url -> Guard, lower: string -> string, allow: set<string>)

  predicate Passes(p: Policy, url: Url) { p.guard(url).Safe? && p.lower(p.guard(url).host) in p.allow }

  datatype Method = Head | Get

  /** A status as it was answered, or an error; a missing or zero status is no status. */
  datatype Answer = Status(code: nat) | Failed(reason: string)

  datatype Result = Result(url: Url, ok: bool, status: Option<int>, skipped: bool, reason: Option<string>)

  function Skip(p: Policy, url: Url): Result {
    Result(url, false, None, true,
           Some(match p.guard(url) case Unsafe(reason) => reason case Safe(_) => "host not in allowlist"))
  }

  /** Whether a HEAD answer is not asked again with GET. */
  predicate Settles(a: Answer) { a.Status? && a.code != 0 && a.code != 405 && a.code != 501 }

  function Finalize(url: Url, a: Answer): Result {
    match a
    case Failed(reason) => Result(url, false, None, false, Some(reason))
    case Status(code) =>
      var ok := 200 <= code < 400;
      Result(url, ok, Some(code), false, if ok then None else Some("HTTP " + Digits(code)))
  }

  // ----- the pool -----

  datatype Phase =
    | NotStarted
    | AtHead(index: nat)
    | AtGet(index: nat)
    | Ready(index: nat, result: Result)
    | Finished

  datatype Entry = Entry(index: nat, result: Result)

  /** `asked` is the history of the requests sent for each index, `answers` the answers to them. */
  datatype State = State(
    cursor: nat,
    phases: seq<Phase>,
    results: seq<Entry>,
    asked: map<nat, seq<Method>>,
    answers: map<nat, seq<Answer>>)

  datatype Event =
    | Start(worker: nat)
    | HeadAnswered(worker: nat, answer: Answer)
    | GetAnswered(worker: nat, answer: Answer)
    | Push(worker: nat)

  function Initial(workers: nat): (s: State)
    ensures |s.phases| == workers
  {
    State(0, seq(workers, _ => NotStarted), [], map[], map[])
  }

  predicate Enabled(s: State, e: Event) {
    && e.worker < |s.phases|
    && match e
       case Start(w) => s.phases[w].NotStarted?
       case HeadAnswered(w, _) => s.phases[w].AtHead?
       case GetAnswered(w, _) => s.phases[w].AtGet?
       case Push(w) => s.phases[w].Ready?
  }

  /** The loop test of a worker: take the next index and begin its check, or leave. */
  function Take(p: Policy, queue: seq<Url>, s: State, w: nat): State
    requires w < |s.phases|
  {
    if s.cursor >= |queue| then s.(phases := s.phases[w := Finished])
    else if Passes(p, queue[s.cursor]) then
      s.(cursor := s.cursor + 1,
         phases := s.phases[w := AtHead(s.cursor)],
         asked := s.asked[s.cursor := [Head]],
         answers := s.answers[s.cursor := []])
    else
      s.(cursor := s.cursor + 1,
         phases := s.phases[w := Ready(s.cursor, Skip(p, queue[s.cursor]))],
         asked := s.asked[s.cursor := []],
         answers := s.answers[s.cursor := []])
  }

  function Step(p: Policy, queue: seq<Url>, s: State, e: Event): State
    requires CanStep(p, queue, s, e)
  {
    match e
    case Start(w) => Take(p, queue, s, w)
    case HeadAnswered(w, a) =>
      var i := s.phases[w].index;
      if Settles(a) then
        s.(phases := s.phases[w := Ready(i, Finalize(queue[i], a))], answers := s.answers[i := s.answers[i] + [a]])
      else
        s.(phases := s.phases[w := AtGet(i)],
           asked := s.asked[i := s.asked[i] + [Get]],
           answers := s.answers[i := s.answers[i] + [a]])
    case GetAnswered(w, a) =>
      var i := s.phases[w].index;
      s.(phases := s.phases[w := Ready(i, Finalize(queue[i], a))], answers := s.answers[i := s.answers[i] + [a]])
    case Push(w) =>
      Take(p, queue, s.(results := s.results + [Entry(s.phases[w].index, s.phases[w].result)]), w)
  }

  function IndexOf(phase: Phase): Option<nat> {
    match phase
    case AtHead(i) => Some(i)
    case AtGet(i) => Some(i)
    case Ready(i, _) => Some(i)
    case _ => None
  }

  // ----- every index is with one worker or in the results -----

  function Held(phases: seq<Phase>, i: nat): nat {
    if phases == [] then 0
    else Held(phases[..|phases| - 1], i) + if IndexOf(phases[|phases| - 1]) == Some(i) then 1 else 0
  }

  function InFlight(phases: seq<Phase>): (n: nat)
    ensures n <= |phases|
  {
    if phases == [] then 0
    else InFlight(phases[..|phases| - 1]) + if IndexOf(phases[|phases| - 1]).Some? then 1 else 0
  }

  function Listed(results: seq<Entry>, i: nat): nat {
    if results == [] then 0
    else Listed(results[..|results| - 1], i) + if results[|results| - 1].index == i then 1 else 0
  }

  /** What was asked and answered for an index explains its result. */
  predicate Explains(p: Policy, url: Url, asked: seq<Method>, answers: seq<Answer>, r: Result) {
    if !Passes(p, url) then asked == [] && answers == [] && r == Skip(p, url)
    else
      || (asked == [Head] && |answers| == 1 && Settles(answers[0]) && r == Finalize(url, answers[0]))
      || (asked == [Head, Get] && |answers| == 2 && !Settles(answers[0]) && r == Finalize(url, answers[1]))
  }

  predicate PhaseFits(p: Policy, queue: seq<Url>, s: State, phase: Phase) {
    match phase
    case AtHead(i) =>
      i < |queue| && i in s.asked && i in s.answers && Passes(p, queue[i]) && s.asked[i] == [Head] && s.answers[i] == []
    case AtGet(i) =>
      && i < |queue| && i in s.asked && i in s.answers && Passes(p, queue[i])
      && s.asked[i] == [Head, Get] && |s.answers[i]| == 1 && !Settles(s.answers[i][0])
    case Ready(i, r) =>
      i < |queue| && i in s.asked && i in s.answers && Explains(p, queue[i], s.asked[i], s.answers[i], r)
    case _ => true
  }

  predicate EntryFits(p: Policy, queue: seq<Url>, s: State, e: Entry) {
    && e.index < |queue| && e.index in s.asked && e.index in s.answers
    && Explains(p, queue[e.index], s.asked[e.index], s.answers[e.index], e.result)
  }

  /** Each index below the cursor is held by one worker or listed once; none above it is. */
  ghost predicate Inv(p: Policy, queue: seq<Url>, s: State) {
    && s.cursor <= |queue|
    && (forall i: nat :: Held(s.phases, i) + Listed(s.results, i) == if i < s.cursor then 1 else 0)
    && |s.results| + InFlight(s.phases) == s.cursor
    && (forall i <- s.asked.Keys :: i < s.cursor && (s.asked[i] != [] ==> Passes(p, queue[i])))
    && (forall w :: 0 <= w < |s.phases| ==> PhaseFits(p, queue, s, s.phases[w]))
    && (forall e <- s.results :: EntryFits(p, queue, s, e))
    && ((exists w :: 0 <= w < |s.phases| && s.phases[w].Finished?) ==> s.cursor == |queue|)
  }

  lemma {:induction false} HeldUpdate(phases: seq<Phase>, w: nat, x: Phase, i: nat)
    requires w < |phases|
    ensures Held(phases[w := x], i) + (if IndexOf(phases[w]) == Some(i) then 1 else 0)
            == Held(phases, i) + if IndexOf(x) == Some(i) then 1 else 0
  {
    hide IndexOf;
    var front := phases[..|phases| - 1];
    if w < |phases| - 1 {
      HeldUpdate(front, w, x, i);
      assert phases[w := x][..|phases| - 1] == front[w := x];
    } else {
      assert phases[w := x][..|phases| - 1] == front;
    }
  }

  lemma {:induction false} InFlightUpdate(phases: seq<Phase>, w: nat, x: Phase)
    requires w < |phases|
    ensures InFlight(phases[w := x]) + (if IndexOf(phases[w]).Some? then 1 else 0)
            == InFlight(phases) + if IndexOf(x).Some? then 1 else 0
  {
    hide IndexOf;
    var front := phases[..|phases| - 1];
    if w < |phases| - 1 {
      InFlightUpdate(front, w, x);
      assert phases[w := x][..|phases| - 1] == front[w := x];
    } else {
      assert phases[w := x][..|phases| - 1] == front;
    }
  }

  lemma {:induction false} NobodyHolds(phases: seq<Phase>, i: nat)
    requires Held(phases, i) == 0
    ensures forall w :: 0 <= w < |phases| ==> IndexOf(phases[w]) != Some(i)
  {
    hide IndexOf;
    if phases != [] { NobodyHolds(phases[..|phases| - 1], i); }
  }

  lemma {:induction false} NothingListed(results: seq<Entry>, i: nat)
    requires Listed(results, i) == 0
    ensures forall e <- results :: e.index != i
  {
    if results != [] {
      NothingListed(results[..|results| - 1], i);
      assert forall e <- results :: e in results[..|results| - 1] || e == results[|results| - 1];
    }
  }

  lemma ListedOneMore(results: seq<Entry>, e: Entry, i: nat)
    ensures Listed(results + [e], i) == Listed(results, i) + if e.index == i then 1 else 0
  {
    assert (results + [e])[..|results|] == results;
  }

  /** A worker's index is with no other worker and not listed. */
  lemma OnlyHere(phases: seq<Phase>, results: seq<Entry>, w: nat, i: nat)
    requires w < |phases| && IndexOf(phases[w]) == Some(i)
    requires Held(phases, i) + Listed(results, i) == 1
    ensures forall v :: 0 <= v < |phases| && v != w ==> IndexOf(phases[v]) != Some(i)
    ensures forall e <- results :: e.index != i
  {
    hide IndexOf, Held, Listed;
    NoIndex();
    HeldUpdate(phases, w, NotStarted, i);
    NobodyHolds(phases[w := NotStarted], i);
    NothingListed(results, i);
    forall v | 0 <= v < |phases| && v != w
      ensures IndexOf(phases[v]) != Some(i)
    {
      assert phases[w := NotStarted][v] == phases[v];
    }
  }

  lemma NoIndex()
    ensures IndexOf(NotStarted) == None && IndexOf(Finished) == None
  {}

  /** Only the maps at index `i` differ, which the phase does not use. */
  lemma FitsElsewhere(p: Policy, queue: seq<Url>, s: State, s': State, phase: Phase, i: nat)
    requires PhaseFits(p, queue, s, phase) && IndexOf(phase) != Some(i)
    requires s.asked.Keys <= s'.asked.Keys && s.answers.Keys <= s'.answers.Keys
    requires forall j <- s.asked.Keys :: j != i ==> s'.asked[j] == s.asked[j]
    requires forall j <- s.answers.Keys :: j != i ==> s'.answers[j] == s.answers[j]
    ensures PhaseFits(p, queue, s', phase)
  {
    hide Explains, Passes, Settles;
  }

  lemma EntryFitsElsewhere(p: Policy, queue: seq<Url>, s: State, s': State, e: Entry, i: nat)
    requires EntryFits(p, queue, s, e) && e.index != i
    requires s.asked.Keys <= s'.asked.Keys && s.answers.Keys <= s'.answers.Keys
    requires forall j <- s.asked.Keys :: j != i ==> s'.asked[j] == s.asked[j]
    requires forall j <- s.answers.Keys :: j != i ==> s'.answers[j] == s.answers[j]
    ensures EntryFits(p, queue, s', e)
  {
    hide Explains, Passes, Settles;
  }

  /** One worker changes, and with it what was asked and answered for index `i`. */
  predicate OneChanges(s: State, s': State, w: nat, i: nat) {
    && w < |s.phases| && |s'.phases| == |s.phases|
    && s'.phases == s.phases[w := s'.phases[w]]
    && s.asked.Keys <= s'.asked.Keys && s.answers.Keys <= s'.answers.Keys
    && (forall j <- s.asked.Keys :: j != i ==> s'.asked[j] == s.asked[j])
    && (forall j <- s.answers.Keys :: j != i ==> s'.answers[j] == s.answers[j])
  }

  lemma OthersFit(p: Policy, queue: seq<Url>, s: State, s': State, w: nat, i: nat)
    requires OneChanges(s, s', w, i)
    requires forall v :: 0 <= v < |s.phases| ==> PhaseFits(p, queue, s, s.phases[v])
    requires forall v :: 0 <= v < |s.phases| && v != w ==> IndexOf(s.phases[v]) != Some(i)
    requires PhaseFits(p, queue, s', s'.phases[w])
    ensures forall v :: 0 <= v < |s'.phases| ==> PhaseFits(p, queue, s', s'.phases[v])
  {
    hide PhaseFits, IndexOf;
    forall v | 0 <= v < |s'.phases|
      ensures PhaseFits(p, queue, s', s'.phases[v])
    {
      if v != w {
        assert s'.phases[v] == s.phases[v];
        FitsElsewhere(p, queue, s, s', s.phases[v], i);
      }
    }
  }

  lemma EntriesFit(p: Policy, queue: seq<Url>, s: State, s': State, w: nat, i: nat)
    requires OneChanges(s, s', w, i) && s'.results == s.results
    requires forall e <- s.results :: EntryFits(p, queue, s, e) && e.index != i
    ensures forall e <- s'.results :: EntryFits(p, queue, s', e)
  {
    hide EntryFits;
    forall e <- s'.results
      ensures EntryFits(p, queue, s', e)
    {
      EntryFitsElsewhere(p, queue, s, s', e, i);
    }
  }

  /** Taking the next index, by a worker that holds none. */
  lemma TakeKeepsInv(p: Policy, queue: seq<Url>, s: State, w: nat)
    requires Inv(p, queue, s) && w < |s.phases| && IndexOf(s.phases[w]) == None
    ensures Inv(p, queue, Take(p, queue, s, w))
  {
    hide PhaseFits, EntryFits, Held, Listed, InFlight, Passes, Skip;
    var c, s' := s.cursor, Take(p, queue, s, w);
    assert Held(s.phases, c) + Listed(s.results, c) == 0;
    NobodyHolds(s.phases, c);
    NothingListed(s.results, c);
    InFlightUpdate(s.phases, w, s'.phases[w]);
    forall i: nat
      ensures Held(s'.phases, i) + Listed(s'.results, i) == if i < s'.cursor then 1 else 0
    {
      HeldUpdate(s.phases, w, s'.phases[w], i);
    }
    NewPhaseFits(p, queue, s, w);
    assert OneChanges(s, s', w, c);
    OthersFit(p, queue, s, s', w, c);
    EntriesFit(p, queue, s, s', w, c);
  }

  lemma NewPhaseFits(p: Policy, queue: seq<Url>, s: State, w: nat)
    requires w < |s.phases| && s.cursor <= |queue|
    ensures var s' := Take(p, queue, s, w); PhaseFits(p, queue, s', s'.phases[w])
  {}

  /** The worker goes on with the index it holds. */
  lemma SameIndexKeepsInv(p: Policy, queue: seq<Url>, s: State, s': State, w: nat, i: nat)
    requires Inv(p, queue, s) && OneChanges(s, s', w, i)
    requires IndexOf(s.phases[w]) == Some(i) == IndexOf(s'.phases[w])
    requires s'.cursor == s.cursor && s'.results == s.results && s'.asked.Keys == s.asked.Keys
    requires i in s.asked && (s'.asked[i] != [] ==> Passes(p, queue[i]))
    requires PhaseFits(p, queue, s', s'.phases[w])
    ensures Inv(p, queue, s')
  {
    hide PhaseFits, EntryFits, Held, Listed, InFlight, Passes;
    assert Held(s.phases, i) + Listed(s.results, i) == 1;
    OnlyHere(s.phases, s.results, w, i);
    InFlightUpdate(s.phases, w, s'.phases[w]);
    forall j: nat
      ensures Held(s'.phases, j) + Listed(s'.results, j) == if j < s'.cursor then 1 else 0
    {
      HeldUpdate(s.phases, w, s'.phases[w], j);
    }
    OthersFit(p, queue, s, s', w, i);
    EntriesFit(p, queue, s, s', w, i);
  }

  /** The result is listed, and the worker holds nothing for a moment. */
  lemma PushKeepsInv(p: Policy, queue: seq<Url>, s: State, w: nat)
    requires Inv(p, queue, s) && w < |s.phases| && s.phases[w].Ready?
    ensures Inv(p, queue, s.(phases := s.phases[w := NotStarted],
                             results := s.results + [Entry(s.phases[w].index, s.phases[w].result)]))
  {
    var e := Entry(s.phases[w].index, s.phases[w].result);
    assert PhaseFits(p, queue, s, s.phases[w]);
    assert EntryFits(p, queue, s, e);
    NoIndex();
    hide PhaseFits, EntryFits, Held, Listed, InFlight;
    var s' := s.(phases := s.phases[w := NotStarted], results := s.results + [e]);
    InFlightUpdate(s.phases, w, NotStarted);
    forall j: nat
      ensures Held(s'.phases, j) + Listed(s'.results, j) == if j < s'.cursor then 1 else 0
    {
      HeldUpdate(s.phases, w, NotStarted, j);
      ListedOneMore(s.results, e, j);
    }
    forall v | 0 <= v < |s'.phases|
      ensures PhaseFits(p, queue, s', s'.phases[v])
    {
      if v != w { SameMapsFit(p, queue, s, s', s.phases[v]); } else { NotStartedFits(p, queue, s'); }
    }
    forall x <- s'.results
      ensures EntryFits(p, queue, s', x)
    {
      SameMapsEntry(p, queue, s, s', x);
    }
  }

  lemma SameMapsFit(p: Policy, queue: seq<Url>, s: State, s': State, phase: Phase)
    requires s'.asked == s.asked && s'.answers == s.answers && PhaseFits(p, queue, s, phase)
    ensures PhaseFits(p, queue, s', phase)
  {}

  lemma NotStartedFits(p: Policy, queue: seq<Url>, s: State)
    ensures PhaseFits(p, queue, s, NotStarted)
  {}

  lemma SameMapsEntry(p: Policy, queue: seq<Url>, s: State, s': State, e: Entry)
    requires s'.asked == s.asked && s'.answers == s.answers && EntryFits(p, queue, s, e)
    ensures EntryFits(p, queue, s', e)
  {}

  predicate CanStep(p: Policy, queue: seq<Url>, s: State, e: Event) {
    && Enabled(s, e) && s.cursor <= |queue|
    && (e.HeadAnswered? || e.GetAnswered? ==>
          var i := IndexOf(s.phases[e.worker]).value; i < |queue| && i in s.asked && i in s.answers)
  }

  lemma EnabledCanStep(p: Policy, queue: seq<Url>, s: State, e: Event)
    requires Inv(p, queue, s) && Enabled(s, e)
    ensures CanStep(p, queue, s, e)
  {
    assert PhaseFits(p, queue, s, s.phases[e.worker]);
  }

  lemma HeadKeepsInv(p: Policy, queue: seq<Url>, s: State, w: nat, a: Answer)
    requires Inv(p, queue, s) && CanStep(p, queue, s, HeadAnswered(w, a))
    ensures Inv(p, queue, Step(p, queue, s, HeadAnswered(w, a)))
  {
    var i, s' := s.phases[w].index, Step(p, queue, s, HeadAnswered(w, a));
    assert PhaseFits(p, queue, s, s.phases[w]);
    assert [Head] + [Get] == [Head, Get] && [] + [a] == [a];
    assert PhaseFits(p, queue, s', s'.phases[w]);
    assert OneChanges(s, s', w, i);
    hide Inv, PhaseFits, Settles, Passes;
    SameIndexKeepsInv(p, queue, s, s', w, i);
  }

  lemma GetKeepsInv(p: Policy, queue: seq<Url>, s: State, w: nat, a: Answer)
    requires Inv(p, queue, s) && CanStep(p, queue, s, GetAnswered(w, a))
    ensures Inv(p, queue, Step(p, queue, s, GetAnswered(w, a)))
  {
    var i, s' := s.phases[w].index, Step(p, queue, s, GetAnswered(w, a));
    assert PhaseFits(p, queue, s, s.phases[w]);
    assert PhaseFits(p, queue, s', s'.phases[w]);
    assert OneChanges(s, s', w, i);
    hide Inv, PhaseFits, Settles, Passes;
    SameIndexKeepsInv(p, queue, s, s', w, i);
  }

  lemma StepKeepsInv(p: Policy, queue: seq<Url>, s: State, e: Event)
    requires Inv(p, queue, s) && CanStep(p, queue, s, e)
    ensures Inv(p, queue, Step(p, queue, s, e))
  {
    hide Inv, Take, IndexOf;
    NoIndex();
    match e
    case Start(w) =>
      TakeKeepsInv(p, queue, s, w);
    case HeadAnswered(w, a) =>
      HeadKeepsInv(p, queue, s, w, a);
    case GetAnswered(w, a) =>
      GetKeepsInv(p, queue, s, w, a);
    case Push(w) =>
      PushKeepsInv(p, queue, s, w);
      var e := Entry(s.phases[w].index, s.phases[w].result);
      var s1 := s.(phases := s.phases[w := NotStarted], results := s.results + [e]);
      TakeKeepsInv(p, queue, s1, w);
      TakeForgets(p, queue, s1, s.(results := s.results + [e]), w);
  }

  /** What a worker was doing does not matter when it takes the next index. */
  lemma TakeForgets(p: Policy, queue: seq<Url>, s: State, t: State, w: nat)
    requires w < |t.phases| && s == t.(phases := t.phases[w := NotStarted])
    ensures Take(p, queue, s, w) == Take(p, queue, t, w)
  {
    var x := Take(p, queue, t, w).phases[w];
    assert s.phases[w := x] == t.phases[w := x];
  }

  // ----- runs -----

  ghost predicate Run(p: Policy, queue: seq<Url>, s: State, events: seq<Event>)
    decreases |events|
  {
    events != [] ==> CanStep(p, queue, s, events[0]) && Run(p, queue, Step(p, queue, s, events[0]), events[1..])
  }

  function Final(p: Policy, queue: seq<Url>, s: State, events: seq<Event>): State
    requires Run(p, queue, s, events)
    decreases |events|
  {
    if events == [] then s else Final(p, queue, Step(p, queue, s, events[0]), events[1..])
  }

  /** A run goes step by step. */
  lemma {:induction false} FinalStepByStep(p: Policy, queue: seq<Url>, s: State, events: seq<Event>, e: Event)
    requires Run(p, queue, s, events) && CanStep(p, queue, Final(p, queue, s, events), e)
    ensures Run(p, queue, s, events + [e])
    ensures Final(p, queue, s, []) == s
    ensures Final(p, queue, s, events + [e]) == Step(p, queue, Final(p, queue, s, events), e)
    decreases |events|
  {
    hide Step, CanStep;
    if events == [] {
      assert [] + [e] == [e] && [e][1..] == [];
      assert Run(p, queue, Step(p, queue, s, e), []);
    } else {
      assert (events + [e])[1..] == events[1..] + [e];
      FinalStepByStep(p, queue, Step(p, queue, s, events[0]), events[1..], e);
    }
  }

  lemma {:induction false} InitialHoldsNothing(workers: nat, i: nat)
    ensures Held(seq(workers, _ => NotStarted), i) == 0 && InFlight(seq(workers, _ => NotStarted)) == 0
  {
    if workers > 0 {
      InitialHoldsNothing(workers - 1, i);
      assert seq(workers, _ => NotStarted)[..workers - 1] == seq(workers - 1, _ => NotStarted);
    }
  }

  lemma InitialInv(p: Policy, queue: seq<Url>, workers: nat)
    ensures Inv(p, queue, Initial(workers))
  {
    hide Held, InFlight;
    InitialHoldsNothing(workers, 0);
    forall i: nat
      ensures Held(Initial(workers).phases, i) == 0
    {
      InitialHoldsNothing(workers, i);
    }
  }

  lemma {:induction false} RunKeepsInv(p: Policy, queue: seq<Url>, s: State, events: seq<Event>)
    requires Inv(p, queue, s) && Run(p, queue, s, events)
    ensures Inv(p, queue, Final(p, queue, s, events)) && |Final(p, queue, s, events).phases| == |s.phases|
    decreases |events|
  {
    hide Step, CanStep, Inv;
    if events != [] {
      StepKeepsInv(p, queue, s, events[0]);
      StepKeepsWorkers(p, queue, s, events[0]);
      RunKeepsInv(p, queue, Step(p, queue, s, events[0]), events[1..]);
    }
  }

  lemma StepKeepsWorkers(p: Policy, queue: seq<Url>, s: State, e: Event)
    requires CanStep(p, queue, s, e)
    ensures |Step(p, queue, s, e).phases| == |s.phases|
  {}

  /** Under every interleaving no more checks are in flight than there are workers. */
  lemma InFlightIsCapped(p: Policy, queue: seq<Url>, maxConcurrency: int, events: seq<Event>)
    requires Run(p, queue, Initial(Workers(maxConcurrency, |queue|)), events)
    ensures var s := Final(p, queue, Initial(Workers(maxConcurrency, |queue|)), events);
      InFlight(s.phases) <= Max(1, if maxConcurrency <= |queue| then maxConcurrency else |queue|)
  {
    hide Run, Final, Inv;
    InitialInv(p, queue, Workers(maxConcurrency, |queue|));
    RunKeepsInv(p, queue, Initial(Workers(maxConcurrency, |queue|)), events);
  }

  predicate AllFinished(s: State) { forall w :: 0 <= w < |s.phases| ==> s.phases[w].Finished? }

  lemma {:induction false} FinishedHoldNothing(phases: seq<Phase>, i: nat)
    requires forall w :: 0 <= w < |phases| ==> phases[w].Finished?
    ensures Held(phases, i) == 0 && InFlight(phases) == 0
  {
    if phases != [] { FinishedHoldNothing(phases[..|phases| - 1], i); }
  }

  /**
   * When all workers have left, each URL of the queue has exactly one result, whatever the order, and that result is
   * explained by the requests sent for it: none for a URL the gates refuse, HEAD or HEAD and GET for the others.
   */
  lemma ResultsAreComplete(p: Policy, queue: seq<Url>, workers: nat, events: seq<Event>, i: nat)
    requires workers >= 1 && Run(p, queue, Initial(workers), events)
    requires AllFinished(Final(p, queue, Initial(workers), events))
    ensures var s := Final(p, queue, Initial(workers), events);
      && |s.results| == |queue|
      && Listed(s.results, i) == (if i < |queue| then 1 else 0)
      && forall e <- s.results ::
           e.index < |queue| && e.index in s.asked && e.index in s.answers
           && Explains(p, queue[e.index], s.asked[e.index], s.answers[e.index], e.result)
  {
    hide Run, Final, Held, Listed, InFlight, Explains;
    InitialInv(p, queue, workers);
    RunKeepsInv(p, queue, Initial(workers), events);
    var s := Final(p, queue, Initial(workers), events);
    assert s.phases[0].Finished?;
    FinishedHoldNothing(s.phases, i);
  }

  /** Nothing is sent for a URL that one of the gates refuses, at any time. */
  lemma OnlyPassingAreFetched(p: Policy, queue: seq<Url>, workers: nat, events: seq<Event>, i: nat)
    requires Run(p, queue, Initial(workers), events)
    ensures var s := Final(p, queue, Initial(workers), events);
      i in s.asked && s.asked[i] != [] ==> i < |queue| && Passes(p, queue[i])
  {
    hide Run, Final, Held, Listed, InFlight, Passes;
    InitialInv(p, queue, workers);
    RunKeepsInv(p, queue, Initial(workers), events);
  }

  /** In so many words: the gates, the requests, and the verdict by the status of the answer that counts. */
  ghost predicate IsVerdict(p: Policy, url: Url, asked: seq<Method>, answers: seq<Answer>, r: Result) {
    match p.guard(url)
    case Unsafe(reason) => asked == [] && answers == [] && r == Result(url, false, None, true, Some(reason))
    case Safe(host) =>
      if p.lower(host) !in p.allow then
        asked == [] && answers == [] && r == Result(url, false, None, true, Some("host not in allowlist"))
      else
        && 1 <= |asked| == |answers| <= 2 && asked[0] == Head && (|asked| == 2 ==> asked[1] == Get)
        && (|asked| == 2 <==> answers[0].Failed? || answers[0].code in {0, 405, 501})
        && match answers[|answers| - 1]
           case Failed(reason) => r == Result(url, false, None, false, Some(reason))
           case Status(code) =>
             if 200 <= code <= 399 then r == Result(url, true, Some(code), false, None)
             else r == Result(url, false, Some(code), false, Some("HTTP " + Digits(code)))
  }

  lemma ExplainedIsVerdict(p: Policy, url: Url, asked: seq<Method>, answers: seq<Answer>, r: Result)
    ensures Explains(p, url, asked, answers, r) <==> IsVerdict(p, url, asked, answers, r)
  {
    hide Digits;
    if 1 <= |asked| == |answers| <= 2 && asked[0] == Head && (|asked| == 2 ==> asked[1] == Get) {
      assert asked == if |asked| == 1 then [Head] else [Head, Get];
    }
  }

  /** Once all workers have left, each URL of the queue has one result, which is the verdict on it. */
  lemma ResultsAreVerdicts(p: Policy, queue: seq<Url>, workers: nat, events: seq<Event>)
    requires workers >= 1 && Run(p, queue, Initial(workers), events)
    requires AllFinished(Final(p, queue, Initial(workers), events))
    ensures var s := Final(p, queue, Initial(workers), events);
      |s.results| == |queue| && forall e <- s.results ::
        && e.index < |queue| && e.index in s.asked && e.index in s.answers
        && IsVerdict(p, queue[e.index], s.asked[e.index], s.answers[e.index], e.result)
  {
    hide Run, Final, Explains, IsVerdict, AllFinished;
    ResultsAreComplete(p, queue, workers, events, 0);
    var s := Final(p, queue, Initial(workers), events);
    forall e <- s.results
      ensures IsVerdict(p, queue[e.index], s.asked[e.index], s.answers[e.index], e.result)
    {
      ExplainedIsVerdict(p, queue[e.index], s.asked[e.index], s.answers[e.index], e.result);
    }
  }

  /** Only URLs that are safe and whose host is allowed are ever requested, at any time. */
  lemma OnlyAllowedAreFetched(p: Policy, queue: seq<Url>, workers: nat, events: seq<Event>, i: nat)
    requires Run(p, queue, Initial(workers), events)
    ensures var s := Final(p, queue, Initial(workers), events);
      i in s.asked && s.asked[i] != [] ==>
        i < |queue| && p.guard(queue[i]).Safe? && p.lower(p.guard(queue[i]).host) in p.allow
  {
    hide Run, Final;
    OnlyPassingAreFetched(p, queue, workers, events, i);
  }

  /** The answers are kept as they came, each with the index its worker holds; only a taken index is new. */
  lemma AnswersAreKept(p: Policy, queue: seq<Url>, s: State, e: Event)
    requires CanStep(p, queue, s, e)
    ensures var s', phase := Step(p, queue, s, e), s.phases[e.worker];
      match e
      case HeadAnswered(_, a) =>
        && s'.answers == s.answers[phase.index := s.answers[phase.index] + [a]]
        && s'.cursor == s.cursor && s'.results == s.results
      case GetAnswered(_, a) =>
        && s'.answers == s.answers[phase.index := s.answers[phase.index] + [a]] && s'.asked == s.asked
        && s'.cursor == s.cursor && s'.results == s.results
      case Start(_) =>
        && s'.results == s.results
        && s'.answers == if s.cursor < |queue| then s.answers[s.cursor := []] else s.answers
      case Push(_) =>
        && s'.results == s.results + [Entry(phase.index, phase.result)]
        && s'.answers == if s.cursor < |queue| then s.answers[s.cursor := []] else s.answers
  {
    hide Passes, Settles, Finalize, Skip;
  }

  // ----- the pool comes to an end -----

  function Rank(phase: Phase): nat {
    match phase
    case NotStarted => 1
    case AtHead(_) => 3
    case AtGet(_) => 2
    case Ready(_, _) => 1
    case Finished => 0
  }

  function Ranks(phases: seq<Phase>): nat {
    if phases == [] then 0 else Ranks(phases[..|phases| - 1]) + Rank(phases[|phases| - 1])
  }

  lemma {:induction false} RanksUpdate(phases: seq<Phase>, w: nat, x: Phase)
    requires w < |phases|
    ensures Ranks(phases[w := x]) + Rank(phases[w]) == Ranks(phases) + Rank(x)
  {
    hide Rank;
    var front := phases[..|phases| - 1];
    if w < |phases| - 1 {
      RanksUpdate(front, w, x);
      assert phases[w := x][..|phases| - 1] == front[w := x];
    } else {
      assert phases[w := x][..|phases| - 1] == front;
    }
  }

  /** What is left to do: three steps for every URL not taken, and what the workers hold. */
  function Remaining(queue: seq<Url>, s: State): nat
    requires s.cursor <= |queue|
  {
    3 * (|queue| - s.cursor) + Ranks(s.phases)
  }

  lemma StepMakesProgress(p: Policy, queue: seq<Url>, s: State, e: Event)
    requires CanStep(p, queue, s, e)
    ensures Step(p, queue, s, e).cursor <= |queue|
    ensures Remaining(queue, Step(p, queue, s, e)) < Remaining(queue, s)
  {
    hide Ranks, Passes, Settles;
    RanksUpdate(s.phases, e.worker, Step(p, queue, s, e).phases[e.worker]);
  }

  lemma {:induction false} RunsEnd(p: Policy, queue: seq<Url>, s: State, events: seq<Event>)
    requires s.cursor <= |queue| && Run(p, queue, s, events)
    ensures |events| <= Remaining(queue, s)
    decreases |events|
  {
    hide Step, CanStep, Remaining;
    if events != [] {
      StepMakesProgress(p, queue, s, events[0]);
      RunsEnd(p, queue, Step(p, queue, s, events[0]), events[1..]);
    }
  }

  lemma {:induction false} NoneStarted(workers: nat)
    ensures Ranks(seq(workers, _ => NotStarted)) == workers
  {
    if workers > 0 {
      NoneStarted(workers - 1);
      assert seq(workers, _ => NotStarted)[..workers - 1] == seq(workers - 1, _ => NotStarted);
    }
  }

  /** No run is longer than three steps for each URL and one for each worker. */
  lemma RunsAreShort(p: Policy, queue: seq<Url>, workers: nat, events: seq<Event>)
    requires Run(p, queue, Initial(workers), events)
    ensures |events| <= 3 * |queue| + workers
  {
    hide Run, Ranks;
    NoneStarted(workers);
    RunsEnd(p, queue, Initial(workers), events);
  }

  /** And a run that has not ended can go on: every worker that has not left has a step. */
  lemma WorkersAreNotStuck(p: Policy, queue: seq<Url>, s: State, w: nat, a: Answer)
    requires Inv(p, queue, s) && w < |s.phases| && !s.phases[w].Finished?
    ensures exists e: Event :: e.worker == w && CanStep(p, queue, s, e)
  {
    hide Inv, CanStep;
    var e := match s.phases[w]
      case NotStarted => Start(w)
      case AtHead(_) => HeadAnswered(w, a)
      case AtGet(_) => GetAnswered(w, a)
      case Ready(_, _) => Push(w)
      case Finished => Start(w);
    EnabledCanStep(p, queue, s, e);
  }

  // ----- the pool as it runs -----

  class Pool {
    const policy: Policy
    const queue: seq<Url>
    const truncated: bool
    var cursor: nat
    var phases: seq<Phase>
    var results: seq<Entry>
    ghost var asked: map<nat, seq<Method>>
    ghost var answers: map<nat, seq<Answer>>

    ghost function Now(): State
      reads this
    {
      State(cursor, phases, results, asked, answers)
    }

    constructor (policy: Policy, urls: seq<Url>, maxConcurrency: int, maxLinks: int)
      ensures this.policy == policy && queue == Queue(urls, maxLinks) && truncated == Truncated(urls, maxLinks)
      ensures Now() == Initial(Workers(maxConcurrency, |queue|))
    {
      var unique: seq<Url> := [];
      for i := 0 to |urls|
        invariant unique == Unique(urls[..i])
      {
        assert urls[..i + 1][..i] == urls[..i];
        if urls[i] !in unique { unique := unique + [urls[i]]; }
      }
      assert urls[..|urls|] == urls;
      var queued := unique[..SliceEnd(maxLinks, |unique|)];
      this.policy, queue, truncated := policy, queued, |unique| > maxLinks;
      cursor, results, asked, answers := 0, [], map[], map[];
      phases := seq(Workers(maxConcurrency, |queued|), _ => NotStarted);
    }

    method TakeNext(w: nat)
      requires w < |phases|
      modifies this
      ensures Now() == Take(policy, queue, old(Now()), w)
    {
      if cursor < |queue| {
        var i := cursor;
        cursor := cursor + 1;
        answers := answers[i := []];
        if !Passes(policy, queue[i]) {
          asked := asked[i := []];
          phases := phases[w := Ready(i, Skip(policy, queue[i]))];
          return;
        }
        asked := asked[i := [Head]];
        phases := phases[w := AtHead(i)];
      } else {
        phases := phases[w := Phase.Finished];
      }
    }

    method Begin(w: nat)
      requires CanStep(policy, queue, Now(), Start(w))
      modifies this
      ensures Now() == Step(policy, queue, old(Now()), Start(w))
    {
      TakeNext(w);
    }

    method OnHead(w: nat, a: Answer)
      requires CanStep(policy, queue, Now(), HeadAnswered(w, a))
      modifies this
      ensures Now() == Step(policy, queue, old(Now()), HeadAnswered(w, a))
    {
      var i := phases[w].index;
      answers := answers[i := answers[i] + [a]];
      if Settles(a) {
        phases := phases[w := Ready(i, Finalize(queue[i], a))];
        return;
      }
      asked := asked[i := asked[i] + [Get]];
      phases := phases[w := AtGet(i)];
    }

    method OnGet(w: nat, a: Answer)
      requires CanStep(policy, queue, Now(), GetAnswered(w, a))
      modifies this
      ensures Now() == Step(policy, queue, old(Now()), GetAnswered(w, a))
    {
      var i := phases[w].index;
      answers := answers[i := answers[i] + [a]];
      phases := phases[w := Ready(i, Finalize(queue[i], a))];
    }

    method PushResult(w: nat)
      requires CanStep(policy, queue, Now(), Push(w))
      modifies this
      ensures Now() == Step(policy, queue, old(Now()), Push(w))
    {
      results := results + [Entry(phases[w].index, phases[w].result)];
      TakeNext(w);
    }
  }
}
