/**
 * Cleaning the `errors` of a GraphQL response: a bounded prefix is kept, and a last entry says how many were dropped.
 * `Cleaner` stands for the cleaning of one message and of the other fields of one error.
 */
module GraphqlErrors {
  import opened Common

  const MAX_COUNT := 50
  const MAX_CHARS := 4000
  const NO_MESSAGE := "GraphQL error with no message"
  const NOT_SHOWN := " more errors not shown"

  /** The fields of an error besides its message; never looked into here. */
  type Rest = string

  const NO_REST: Rest := ""

  /** An entry of the list: a text, or a record whose message may be absent or no text. */
  datatype Entry = Text(text: string) | Record(message: Option<string>, rest: Rest)

  datatype Cleaner = Cleaner(message: string -> string, rest: Rest -> Rest)

  // ----- the last entry -----

  function MarkerText(n: nat): string { Digits(n) + NOT_SHOWN }

  predicate IsMarker(text: string) {
    && |text| > |NOT_SHOWN|
    && text[|text| - |NOT_SHOWN|..] == NOT_SHOWN
    && AllDigits(text[..|text| - |NOT_SHOWN|])
  }

  /** How many errors a last message stands for; zero when it is no count. */
  function Count(text: string): nat {
    if IsMarker(text) then Decimal(text[..|text| - |NOT_SHOWN|]) else 0
  }

  lemma MarkerIsRead(n: nat)
    ensures IsMarker(MarkerText(n)) && Count(MarkerText(n)) == n
  {
    hide Digits;
    DigitsAreRead(n);
    var text := MarkerText(n);
    assert text[|text| - |NOT_SHOWN|..] == NOT_SHOWN && text[..|text| - |NOT_SHOWN|] == Digits(n);
  }

  /** A count is written as a number before the words, and nothing else reads as one. */
  lemma CountIsExact(text: string)
    ensures IsMarker(text) <==>
              exists digits :: digits != "" && AllDigits(digits) && text == digits + " more errors not shown"
    ensures !IsMarker(text) ==> Count(text) == 0
  {
    if IsMarker(text) {
      var digits := text[..|text| - |NOT_SHOWN|];
      assert text == digits + NOT_SHOWN;
    }
    if digits: string :| digits != "" && AllDigits(digits) && text == digits + " more errors not shown" {
      assert text[..|text| - |NOT_SHOWN|] == digits && text[|text| - |NOT_SHOWN|..] == NOT_SHOWN;
    }
  }

  lemma CountIsRead(digits: string)
    requires digits != "" && AllDigits(digits)
    ensures Count(digits + " more errors not shown") == Decimal(digits)
  {
    hide Decimal;
    var text := digits + NOT_SHOWN;
    assert text[..|text| - |NOT_SHOWN|] == digits && text[|text| - |NOT_SHOWN|..] == NOT_SHOWN;
  }

  lemma CountIsWritten(n: nat)
    ensures MarkerText(n) == Digits(n) + " more errors not shown"
  {}

  /** Only the `message` of a record is read; a text entry is never taken for a count. */
  function Carried(list: seq<Entry>): nat {
    if list == [] then 0
    else
      match list[|list| - 1]
      case Text(_) => 0
      case Record(message, _) => if message.Some? then Count(message.value) else 0
  }

  function Source(list: seq<Entry>): (source: seq<Entry>) {
    if Carried(list) > 0 then list[..|list| - 1] else list
  }

  /** How many errors a list stands for. */
  function Represented(list: seq<Entry>): nat { |Source(list)| + Carried(list) }

  // ----- cleaning -----

  function OrNone(text: string): string { if text == "" then NO_MESSAGE else text }

  function CleanOne(c: Cleaner, e: Entry): (r: Entry)
    ensures r.Record? && r.message.Some?
  {
    match e
    case Text(text) => Record(Some(OrNone(c.message(text))), NO_REST)
    case Record(message, rest) =>
      Record(Some(if message.Some? then OrNone(c.message(message.value)) else NO_MESSAGE), c.rest(rest))
  }

  /** The last entry is read as a count if it is a record whose message is a text. */
  lemma CarriedIsExact(list: seq<Entry>, text: string, rest: Rest)
    ensures Carried([]) == 0 && Carried(list + [Text(text)]) == 0 && Carried(list + [Record(None, rest)]) == 0
    ensures Carried(list + [Record(Some(text), rest)]) == Count(text)
  {
    hide Count;
  }

  /** One error cleaned: its message, or the words for none, and its other fields. */
  lemma OneIsCleaned(c: Cleaner, text: string, rest: Rest)
    ensures c.message(text) != "" ==>
              && CleanOne(c, Text(text)) == Record(Some(c.message(text)), "")
              && CleanOne(c, Record(Some(text), rest)) == Record(Some(c.message(text)), c.rest(rest))
    ensures c.message(text) == "" ==>
              && CleanOne(c, Text(text)) == Record(Some("GraphQL error with no message"), "")
              && CleanOne(c, Record(Some(text), rest))
                 == Record(Some("GraphQL error with no message"), c.rest(rest))
    ensures CleanOne(c, Record(None, rest)) == Record(Some("GraphQL error with no message"), c.rest(rest))
  {}

  function Chars(kept: seq<Entry>): nat {
    if kept == [] then 0
    else Chars(kept[..|kept| - 1]) + MessageLength(kept[|kept| - 1])
  }

  function MessageLength(e: Entry): nat { if e.Record? && e.message.Some? then |e.message.value| else 0 }

  function CleanAll(c: Cleaner, source: seq<Entry>): (r: seq<Entry>)
    ensures |r| == |source|
    ensures forall i :: 0 <= i < |r| ==> r[i] == CleanOne(c, source[i])
  {
    if source == [] then [] else CleanAll(c, source[..|source| - 1]) + [CleanOne(c, source[|source| - 1])]
  }

  /** Whether there is room for the k-th error after those before it. The first always has. */
  predicate Room(c: Cleaner, source: seq<Entry>, k: nat)
    requires k < |source|
  {
    && k < MAX_COUNT
    && (k == 0 || Chars(CleanAll(c, source[..k])) + MessageLength(CleanOne(c, source[k])) <= MAX_CHARS)
  }

  /** The first has room; of the others fifty in all, as far as all messages have at most 4000 characters. */
  lemma RoomIsExact(c: Cleaner, source: seq<Entry>, k: nat)
    requires k < |source|
    ensures Room(c, source, k) <==>
              k < 50 && (k == 0 || Chars(CleanAll(c, source[..k + 1])) <= 4000)
  {
    hide CleanOne, MessageLength;
    KeepOneMore(c, source, k);
  }

  lemma MessagesAreCounted(kept: seq<Entry>, text: string, rest: Rest)
    ensures Chars([]) == 0 && Chars(kept + [Record(Some(text), rest)]) == Chars(kept) + |text|
  {
    assert (kept + [Record(Some(text), rest)])[..|kept|] == kept;
  }

  /** Whether there is room, for every error of the list. */
  function Rooms(c: Cleaner, source: seq<Entry>): (rooms: seq<bool>)
    ensures |rooms| == |source| && forall i :: 0 <= i < |source| ==> rooms[i] == Room(c, source, i)
  {
    seq(|source|, i requires 0 <= i < |source| => Room(c, source, i))
  }

  function FirstFalse(bs: seq<bool>, k: nat): (n: nat)
    requires k <= |bs|
    ensures k <= n <= |bs| && (n < |bs| ==> !bs[n])
    ensures forall i :: k <= i < n ==> bs[i]
    decreases |bs| - k
  {
    if k < |bs| && bs[k] then FirstFalse(bs, k + 1) else k
  }

  /** How many errors are kept: all before the first that has no room. */
  function KeptFrom(c: Cleaner, source: seq<Entry>, k: nat): (n: nat)
    requires k <= |source|
    ensures k <= n <= |source|
    ensures forall i :: k <= i < n ==> Room(c, source, i)
    ensures n < |source| ==> !Room(c, source, n)
  {
    FirstFalse(Rooms(c, source), k)
  }

  function Kept(c: Cleaner, list: seq<Entry>): nat { KeptFrom(c, Source(list), 0) }

  function Dropped(c: Cleaner, list: seq<Entry>): nat { |Source(list)| - Kept(c, list) + Carried(list) }

  function Clean(c: Cleaner, list: seq<Entry>): seq<Entry> {
    CleanAll(c, Source(list)[..Kept(c, list)])
    + if Dropped(c, list) > 0 then [Record(Some(MarkerText(Dropped(c, list))), NO_REST)] else []
  }

  lemma KeepOneMore(c: Cleaner, source: seq<Entry>, k: nat)
    requires k < |source|
    ensures Room(c, source, k) ==> KeptFrom(c, source, k) == KeptFrom(c, source, k + 1)
    ensures !Room(c, source, k) ==> KeptFrom(c, source, k) == k
    ensures CleanAll(c, source[..k + 1]) == CleanAll(c, source[..k]) + [CleanOne(c, source[k])]
    ensures Chars(CleanAll(c, source[..k + 1]))
         == Chars(CleanAll(c, source[..k])) + MessageLength(CleanOne(c, source[k]))
  {
    hide CleanOne, MessageLength, Room;
    assert source[..k + 1][..k] == source[..k];
    var all := CleanAll(c, source[..k + 1]);
    assert all[..k] == CleanAll(c, source[..k]);
  }

  /** The first `k` errors are cleaned and kept. */
  ghost predicate KeptSoFar(c: Cleaner, source: seq<Entry>, k: nat, cleaned: seq<Entry>, chars: nat) {
    && k <= |source| && |cleaned| == k
    && cleaned == CleanAll(c, source[..k]) && chars == Chars(cleaned)
    && KeptFrom(c, source, k) == KeptFrom(c, source, 0)
  }

  lemma KeepNext(c: Cleaner, source: seq<Entry>, k: nat, cleaned: seq<Entry>, chars: nat)
    requires k < |source| && KeptSoFar(c, source, k, cleaned, chars)
    ensures var entry := CleanOne(c, source[k]);
      if k < MAX_COUNT && (cleaned == [] || chars + MessageLength(entry) <= MAX_CHARS)
      then KeptSoFar(c, source, k + 1, cleaned + [entry], chars + MessageLength(entry))
      else KeptFrom(c, source, 0) == k
  {
    hide CleanOne, MessageLength, CleanAll, Chars, KeptFrom;
    KeepOneMore(c, source, k);
  }

  lemma KeepStart(c: Cleaner, source: seq<Entry>)
    ensures KeptSoFar(c, source, 0, [], 0)
  {
    assert source[..0] == [];
  }

  method CleanGraphqlErrors(c: Cleaner, list: seq<Entry>) returns (cleaned: seq<Entry>)
    ensures cleaned == Clean(c, list)
  {
    if list == [] {
      EmptyIsClean(c);
      return [];
    }
    var carried := Carried(list);
    var source := Source(list);
    cleaned := KeepPrefix(c, source);
    assert cleaned == CleanAll(c, source[..Kept(c, list)]);
    var dropped := |source| - |cleaned| + carried;
    hide CleanAll, KeptFrom, MarkerText, Carried;
    if dropped > 0 { cleaned := cleaned + [Record(Some(MarkerText(dropped)), NO_REST)]; }
  }

  method KeepPrefix(c: Cleaner, source: seq<Entry>) returns (cleaned: seq<Entry>)
    ensures cleaned == CleanAll(c, source[..KeptFrom(c, source, 0)])
    ensures |cleaned| == KeptFrom(c, source, 0)
  {
    hide CleanOne, MessageLength, CleanAll, Chars, KeptFrom, Room;
    KeepStart(c, source);
    cleaned := [];
    var chars: nat := 0;
    for k := 0 to |source|
      invariant KeptSoFar(c, source, k, cleaned, chars)
    {
      KeepNext(c, source, k, cleaned, chars);
      if k >= MAX_COUNT { return; }
      var entry := CleanOne(c, source[k]);
      if cleaned != [] && chars + MessageLength(entry) > MAX_CHARS { return; }
      cleaned := cleaned + [entry];
      chars := chars + MessageLength(entry);
    }
    KeptAll(c, source);
  }

  lemma KeptAll(c: Cleaner, source: seq<Entry>)
    ensures KeptFrom(c, source, |source|) == |source|
  {}

  lemma EmptyIsClean(c: Cleaner)
    ensures Clean(c, []) == []
  {}

  // ----- bounds -----

  lemma KeptFits(c: Cleaner, source: seq<Entry>)
    ensures var n := KeptFrom(c, source, 0);
      n <= MAX_COUNT && (n <= 1 || Chars(CleanAll(c, source[..n])) <= MAX_CHARS)
  {
    hide CleanOne, MessageLength, CleanAll, Chars;
    var n := KeptFrom(c, source, 0);
    hide KeptFrom;
    if n > 0 {
      assert Room(c, source, n - 1);
      KeepOneMore(c, source, n - 1);
    }
  }

  /** At most fifty errors and 4000 characters are kept, unless one error alone is longer. */
  lemma KeptIsBounded(c: Cleaner, list: seq<Entry>)
    ensures Kept(c, list) <= MAX_COUNT && Kept(c, list) <= |Source(list)|
    ensures Kept(c, list) <= 1 || Chars(CleanAll(c, Source(list)[..Kept(c, list)])) <= MAX_CHARS
    ensures |Clean(c, list)| <= MAX_COUNT + 1
  {
    hide CleanOne, Source, MarkerText, Carried, KeptFrom, Chars, CleanAll;
    KeptFits(c, Source(list));
  }

  /** Nothing is dropped without need: the first error left out had no room. */
  lemma KeptIsMaximal(c: Cleaner, list: seq<Entry>)
    ensures Kept(c, list) < |Source(list)| ==> !Room(c, Source(list), Kept(c, list))
  {}

  // ----- conservation -----

  /** At most fifty errors, and their cleaned messages within 4000 characters or only one. */
  predicate Fits(c: Cleaner, list: seq<Entry>) {
    |list| <= MAX_COUNT && (|list| <= 1 || Chars(CleanAll(c, list)) <= MAX_CHARS)
  }

  /** What the cleaned message of the last entry reads as; zero when it is no count. */
  function LastCount(c: Cleaner, list: seq<Entry>): nat
    requires list != []
  {
    Count(CleanOne(c, list[|list| - 1]).message.value)
  }

  /** The last entry is no count, everything fits, and the last message once cleaned reads as a count. */
  predicate LooksCounted(c: Cleaner, list: seq<Entry>) {
    list != [] && Carried(list) == 0 && Fits(c, list) && LastCount(c, list) > 0
  }

  lemma {:induction false} MoreChars(c: Cleaner, list: seq<Entry>, k: nat)
    requires k <= |list|
    ensures Chars(CleanAll(c, list[..k])) <= Chars(CleanAll(c, list))
    decreases |list| - k
  {
    hide CleanOne, MessageLength, Room;
    if k < |list| {
      KeepOneMore(c, list, k);
      MoreChars(c, list, k + 1);
    } else {
      assert list[..k] == list;
    }
  }

  /** A list that fits, and no other, is kept whole. */
  lemma FittingIsKept(c: Cleaner, list: seq<Entry>)
    ensures KeptFrom(c, list, 0) == |list| <==> Fits(c, list)
  {
    hide CleanOne, MessageLength, CleanAll;
    var n := KeptFrom(c, list, 0);
    if n < |list| && Fits(c, list) && n > 0 {
      KeepOneMore(c, list, n);
      MoreChars(c, list, n + 1);
    }
    if n == |list| && n > 1 {
      assert Room(c, list, n - 1);
      KeepOneMore(c, list, n - 1);
      assert list[..n] == list;
    }
  }

  /** In terms of the output: nothing is dropped, and yet its last message reads as a count. */
  lemma LooksCountedInOutput(c: Cleaner, list: seq<Entry>)
    ensures LooksCounted(c, list) <==> Dropped(c, list) == 0 && Carried(CleanAll(c, Source(list))) > 0
    ensures LooksCounted(c, list) ==> Source(list) == list && Carried(CleanAll(c, list)) == LastCount(c, list)
  {
    hide CleanOne, KeptFrom, Fits, Count;
    FittingIsKept(c, list);
    if list != [] && Carried(list) == 0 {
      assert CleanAll(c, list)[|list| - 1] == CleanOne(c, list[|list| - 1]);
    }
  }

  /**
   * The errors kept and the number reported make up what the input stood for. Read back, the output stands for as
   * many, exactly if the input does not end with a message that is no count and comes to read as one; a count of one
   * comes out even.
   */
  lemma CleaningConserves(c: Cleaner, list: seq<Entry>)
    ensures Kept(c, list) + Dropped(c, list) == Represented(list)
    ensures Represented(Clean(c, list)) == Represented(list) <==> !LooksCounted(c, list) || LastCount(c, list) == 1
  {
    LooksCountedInOutput(c, list);
    hide CleanOne, KeptFrom, CleanAll, Count, MarkerText, LooksCounted, LastCount;
    var source, n := Source(list), Kept(c, list);
    if Dropped(c, list) > 0 {
      MarkerIsRead(Dropped(c, list));
      var out := Clean(c, list);
      assert out[..|out| - 1] == CleanAll(c, source[..n]);
    } else {
      assert source[..n] == source && CleanAll(c, source) + [] == CleanAll(c, source);
    }
  }

  /** One text that reads as a count: it is kept as the one error it is, and then stands for many. */
  lemma CountTextIsMiscounted(c: Cleaner, n: nat)
    requires c.message(MarkerText(n)) == MarkerText(n) && n > 1
    ensures Represented([Text(MarkerText(n))]) == 1 && Represented(Clean(c, [Text(MarkerText(n))])) == n
  {
    MarkerIsRead(n);
    hide MarkerText, Count, KeptFrom, Chars;
    var list := [Text(MarkerText(n))];
    assert Carried(list) == 0 && Source(list) == list && list[..1] == list;
    FittingIsKept(c, list);
    assert CleanAll(c, list) == [CleanOne(c, list[0])];
    assert Clean(c, list) == [Record(Some(MarkerText(n)), NO_REST)];
  }

  // ----- stability -----

  /** Cleaning twice is cleaning once, for one message and for the other fields. */
  ghost predicate Idempotent(c: Cleaner) {
    && (forall m :: c.message(c.message(m)) == c.message(m))
    && c.message(NO_MESSAGE) == NO_MESSAGE
    && (forall r :: c.rest(c.rest(r)) == c.rest(r))
    && c.rest(NO_REST) == NO_REST
  }

  /** Cleaning never makes a count of a message that is none. */
  ghost predicate MakesNoCount(c: Cleaner) {
    forall m :: Count(m) == 0 ==> Count(c.message(m)) == 0
  }

  /** A text entry that comes last and reads as a count; it is taken for one only after it became a record. */
  ghost predicate EndsWithCountText(c: Cleaner, list: seq<Entry>) {
    list != [] && list[|list| - 1].Text? && Count(c.message(list[|list| - 1].text)) > 0
  }

  lemma NoMessageIsNoCount()
    ensures Count(NO_MESSAGE) == 0
  {
    assert NO_MESSAGE[|NO_MESSAGE| - 1] != NOT_SHOWN[|NOT_SHOWN| - 1];
    assert !IsMarker(NO_MESSAGE);
  }

  lemma CleanOneTwice(c: Cleaner, e: Entry)
    requires Idempotent(c)
    ensures CleanOne(c, CleanOne(c, e)) == CleanOne(c, e)
  {}

  /** With such a cleaner only a last text entry can come to look counted. */
  lemma OnlyTextsLookCounted(c: Cleaner, list: seq<Entry>)
    requires MakesNoCount(c) && !EndsWithCountText(c, list)
    ensures !LooksCounted(c, list)
  {
    hide Count, Fits;
    NoMessageIsNoCount();
    if list != [] && Carried(list) == 0 {
      var last := list[|list| - 1];
      if last.Record? && last.message.Some? {
        assert Count(last.message.value) == 0;
        assert Count(c.message(last.message.value)) == 0;
      }
    }
  }

  lemma {:induction false} CleanAllTwice(c: Cleaner, source: seq<Entry>)
    requires Idempotent(c)
    ensures CleanAll(c, CleanAll(c, source)) == CleanAll(c, source)
  {
    hide CleanOne, Idempotent;
    if source != [] {
      var front, last := source[..|source| - 1], source[|source| - 1];
      CleanAllTwice(c, front);
      CleanOneTwice(c, last);
      assert CleanAll(c, source)[..|front|] == CleanAll(c, front);
    }
  }

  /** What was kept once is kept again. */
  lemma RoomAgain(c: Cleaner, source: seq<Entry>, n: nat, k: nat)
    requires Idempotent(c) && k < n <= |source| && Room(c, source, k)
    ensures Room(c, CleanAll(c, source[..n]), k)
  {
    hide CleanOne, Idempotent, Chars, MessageLength;
    var kept := CleanAll(c, source[..n]);
    CleanOneTwice(c, source[k]);
    assert kept[..k] == CleanAll(c, source[..k]);
    CleanAllTwice(c, source[..k]);
  }

  lemma KeptAgain(c: Cleaner, source: seq<Entry>, n: nat)
    requires Idempotent(c) && n <= KeptFrom(c, source, 0)
    ensures KeptFrom(c, CleanAll(c, source[..n]), 0) == n
  {
    hide CleanOne, Idempotent, Room, CleanAll;
    var kept := CleanAll(c, source[..n]);
    var m := KeptFrom(c, kept, 0);
    if m < n {
      assert Room(c, source, m);
      RoomAgain(c, source, n, m);
    }
  }

  lemma StableWhenDropped(c: Cleaner, list: seq<Entry>)
    requires Idempotent(c) && Dropped(c, list) > 0
    ensures Clean(c, Clean(c, list)) == Clean(c, list)
  {
    hide CleanOne, Idempotent, KeptFrom, CleanAll, Count, MarkerText;
    var source, n, out := Source(list), Kept(c, list), Clean(c, list);
    var kept := CleanAll(c, source[..n]);
    KeptAgain(c, source, n);
    CleanAllTwice(c, source[..n]);
    MarkerIsRead(Dropped(c, list));
    assert Source(out) == kept && kept[..n] == kept;
  }

  lemma StableWhenNotCounted(c: Cleaner, list: seq<Entry>)
    requires Idempotent(c) && Dropped(c, list) == 0 && !LooksCounted(c, list)
    ensures Clean(c, Clean(c, list)) == Clean(c, list)
  {
    LooksCountedInOutput(c, list);
    hide CleanOne, Idempotent, KeptFrom, CleanAll, Carried, MarkerText, LooksCounted;
    var source, n, out := Source(list), Kept(c, list), Clean(c, list);
    KeptAgain(c, source, n);
    CleanAllTwice(c, source);
    assert source[..n] == source && out == CleanAll(c, source);
    assert Source(out) == out && out[..n] == out;
  }

  lemma StableWhenCounted(c: Cleaner, list: seq<Entry>)
    requires Idempotent(c) && LooksCounted(c, list)
    ensures var out := Clean(c, list);
      && out != []
      && |out| == |list| && out[|out| - 1] == CleanOne(c, list[|list| - 1])
      && Clean(c, out) == out[..|out| - 1] + [Record(Some(MarkerText(LastCount(c, list))), NO_REST)]
  {
    LooksCountedInOutput(c, list);
    hide CleanOne, Idempotent, KeptFrom, CleanAll, Count, MarkerText, Fits, LastCount;
    var source, n, out := Source(list), Kept(c, list), Clean(c, list);
    assert source[..n] == source && out == CleanAll(c, source);
    var front := CleanAll(c, source[..n - 1]);
    assert out[..n - 1] == front;
    KeptAgain(c, source, n - 1);
    CleanAllTwice(c, source[..n - 1]);
    assert Source(out) == front && front[..n - 1] == front;
  }

  lemma SameButLast(out: seq<Entry>, last: Entry)
    requires out != []
    ensures out[..|out| - 1] + [last] == out <==> out[|out| - 1] == last
  {
    assert (out[..|out| - 1] + [last])[|out| - 1] == last;
    assert out == out[..|out| - 1] + [out[|out| - 1]];
  }

  /**
   * Cleaning the output again returns it, exactly if the input does not end with a message that is no count and comes
   * to read as one, or that last entry comes out as the very count that would be written, with no other fields.
   */
  lemma CleaningIsStable(c: Cleaner, list: seq<Entry>)
    requires Idempotent(c)
    ensures Clean(c, Clean(c, list)) == Clean(c, list) <==>
      !LooksCounted(c, list)
      || CleanOne(c, list[|list| - 1]) == Record(Some(MarkerText(LastCount(c, list))), NO_REST)
  {
    LooksCountedInOutput(c, list);
    hide Clean, Idempotent, Carried, MarkerText, Dropped, CleanAll, CleanOne, Source, Fits, LastCount;
    if Dropped(c, list) > 0 {
      StableWhenDropped(c, list);
    } else if LooksCounted(c, list) {
      StableWhenCounted(c, list);
      SameButLast(Clean(c, list), Record(Some(MarkerText(LastCount(c, list))), NO_REST));
    } else {
      StableWhenNotCounted(c, list);
    }
  }

  /** The two promises together, for a cleaner that is idempotent and makes no counts. */
  lemma StableAndConserving(c: Cleaner, list: seq<Entry>)
    requires Idempotent(c) && MakesNoCount(c) && !EndsWithCountText(c, list)
    ensures Clean(c, Clean(c, list)) == Clean(c, list)
    ensures Represented(Clean(c, list)) == Represented(list)
  {
    hide Idempotent, MakesNoCount, LooksCounted, Clean, Represented, EndsWithCountText;
    OnlyTextsLookCounted(c, list);
    CleaningIsStable(c, list);
    CleaningConserves(c, list);
  }
}
