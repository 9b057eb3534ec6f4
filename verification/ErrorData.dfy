/**
 * Cleaning a structured failure payload: the shape is kept, and the nesting, the entries of each level and the
 * text in all of it are bounded. `Scrub` stands for the removal of markup, traces and server paths from a text.
 */
module ErrorData {
  import opened Common

  const TRUNCATED := ['\U{2026}'] + " [truncated]"
  const DETAIL_MAX := 400
  const DATA_MAX := 4000
  const MAX_ENTRIES := 50
  const MAX_DEPTH := 6
  const KEY_MAX := 100

  type Scrub = string -> string

  // ----- one text -----

  predicate EndsWith(s: string, suffix: string) { |suffix| <= |s| && s[|s| - |suffix|..] == suffix }

  function BoundText(text: string, max: nat): (r: string)
    ensures |r| <= max + |TRUNCATED|
    ensures |text| <= max ==> r == text
    ensures |text| > max ==> EndsWith(r, TRUNCATED)
  {
    if |text| <= max then text
    else if EndsWith(text, TRUNCATED) && |text| <= max + |TRUNCATED| then text
    else
      var cut := TrimEnd(text[..max]);
      assert (cut + TRUNCATED)[|cut|..] == TRUNCATED;
      cut + TRUNCATED
  }

  /** A text that was cut once is not cut again. */
  lemma BoundTextTwice(text: string, max: nat)
    ensures BoundText(BoundText(text, max), max) == BoundText(text, max)
  {
    hide TrimEnd, EndsWith;
  }

  /** Where a text is cut: at the bound, less the white space before it, unless it is a text that was cut before. */
  lemma CutIsExact(text: string, max: nat)
    ensures var suffix := ['\U{2026}'] + " [truncated]";
      BoundText(text, max) ==
        if |text| <= max then text
        else if |text| <= max + 13 && exists u :: text == u + suffix then text
        else TrimEnd(text[..max]) + suffix
  {
    hide TrimEnd;
    var suffix := ['\U{2026}'] + " [truncated]";
    assert |suffix| == 13;
    if EndsWith(text, suffix) { assert text == text[..|text| - 13] + suffix; }
    if u :| text == u + suffix { assert text[|text| - 13..] == suffix; }
  }

  function CleanText(scrub: Scrub, text: string, max: nat): (r: string)
    ensures |r| <= max + |TRUNCATED|
  {
    BoundText(scrub(text), max)
  }

  // ----- markup -----

  /** Where `c` first occurs, or the length. */
  function Find(s: string, c: char): (at: nat)
    ensures at <= |s|
  {
    if s == "" || s[0] == c then 0 else 1 + Find(s[1..], c)
  }

  /** The length of the tag at the front, from its '<' to the next '>'; zero when there is none. */
  function TagLength(s: string): (n: nat)
    ensures n <= |s|
    ensures n > 0 ==> s[0] == '<'
  {
    if s == "" || s[0] != '<' || Find(s, '>') == |s| then 0 else Find(s, '>') + 1
  }

  /** One pass that removes every tag, left to right. */
  function RemoveTags(s: string): (t: string)
    ensures |t| <= |s|
    decreases |s|
  {
    if s == "" then ""
    else if TagLength(s) > 0 then RemoveTags(s[TagLength(s)..])
    else [s[0]] + RemoveTags(s[1..])
  }

  function DropBrackets(s: string): (t: string)
    ensures '<' !in t && '>' !in t
  {
    if s == "" then ""
    else if s[0] == '<' || s[0] == '>' then DropBrackets(s[1..])
    else [s[0]] + DropBrackets(s[1..])
  }

  /** `t` is what is left of `s` when some characters are taken out. */
  predicate Subsequence(t: string, s: string) {
    if t == "" then true
    else if s == "" then false
    else if t[0] == s[0] && Subsequence(t[1..], s[1..]) then true
    else Subsequence(t, s[1..])
  }

  lemma {:induction false} DropFirst(t: string, s: string)
    requires t != "" && Subsequence(t, s)
    ensures Subsequence(t[1..], s)
  {
    if s != "" && !(t[0] == s[0] && Subsequence(t[1..], s[1..])) {
      DropFirst(t, s[1..]);
    } else if |t| > 1 && |s| > 1 {
      assert Subsequence(t[1..], s[1..]);
    }
  }

  lemma {:induction false} SubsequenceTransitive(a: string, b: string, c: string)
    requires Subsequence(a, b) && Subsequence(b, c)
    ensures Subsequence(a, c)
    decreases |b| + |c|
  {
    if a != "" {
      if b[0] == c[0] && Subsequence(b[1..], c[1..]) {
        if a[0] == b[0] && Subsequence(a[1..], b[1..]) {
          SubsequenceTransitive(a[1..], b[1..], c[1..]);
        } else {
          SubsequenceTransitive(a, b[1..], c[1..]);
        }
      } else {
        SubsequenceTransitive(a, b, c[1..]);
      }
    }
  }

  lemma {:induction false} SubsequenceOfSuffix(t: string, s: string, k: nat)
    requires k <= |s| && Subsequence(t, s[k..])
    ensures Subsequence(t, s)
    decreases k
  {
    if k == 0 {
      assert s[0..] == s;
    } else {
      assert s[k - 1..][1..] == s[k..];
      SubsequenceOfSuffix(t, s, k - 1);
    }
  }

  lemma {:induction false} SubsequenceIsReflexive(s: string)
    ensures Subsequence(s, s)
  {
    if s != "" { SubsequenceIsReflexive(s[1..]); }
  }

  lemma FirstKeepsOrder(c: char, t: string, s: string)
    requires Subsequence(t, s)
    ensures Subsequence([c] + t, [c] + s)
  {
    assert ([c] + t)[1..] == t && ([c] + s)[1..] == s;
  }

  lemma {:induction false} RemoveTagsKeepsOrder(s: string)
    ensures Subsequence(RemoveTags(s), s)
    decreases |s|
  {
    hide Subsequence, TagLength;
    if s == "" {
      SubsequenceIsReflexive(s);
    } else if TagLength(s) > 0 {
      RemoveTagsKeepsOrder(s[TagLength(s)..]);
      SubsequenceOfSuffix(RemoveTags(s), s, TagLength(s));
    } else {
      RemoveTagsKeepsOrder(s[1..]);
      FirstKeepsOrder(s[0], RemoveTags(s[1..]), s[1..]);
      assert s == [s[0]] + s[1..];
    }
  }

  lemma {:induction false} DropBracketsKeepsOrder(s: string)
    ensures Subsequence(DropBrackets(s), s)
  {
    hide Subsequence;
    if s == "" {
      SubsequenceIsReflexive(s);
    } else {
      DropBracketsKeepsOrder(s[1..]);
      if s[0] == '<' || s[0] == '>' {
        SubsequenceOfSuffix(DropBrackets(s), s, 1);
      } else {
        FirstKeepsOrder(s[0], DropBrackets(s[1..]), s[1..]);
        assert s == [s[0]] + s[1..];
      }
    }
  }

  lemma {:induction false} RemoveTagsSame(s: string)
    requires '<' !in s
    ensures RemoveTags(s) == s
  {
    hide TagLength;
    if s != "" {
      assert s[0] in s;
      RemoveTagsSame(s[1..]);
    }
  }

  lemma {:induction false} DropBracketsSame(s: string)
    requires '<' !in s && '>' !in s
    ensures DropBrackets(s) == s
  {
    if s != "" { DropBracketsSame(s[1..]); }
  }

  lemma {:induction false} FoundFirst(u: string, c: char, v: string)
    requires c !in u
    ensures Find(u + [c] + v, c) == |u|
  {
    if u == "" {
      assert ([] + [c] + v)[0] == c;
    } else {
      assert u[0] in u && forall x <- u[1..] :: x in u;
      FoundFirst(u[1..], c, v);
      assert (u + [c] + v)[1..] == u[1..] + [c] + v;
    }
  }

  lemma {:induction false} NotFound(s: string, c: char)
    requires c !in s
    ensures Find(s, c) == |s|
  {
    if s != "" {
      assert s[0] in s && forall x <- s[1..] :: x in s;
      NotFound(s[1..], c);
    }
  }

  /** What is before the first '<' stays. */
  lemma {:induction false} TextStays(u: string, v: string)
    requires '<' !in u
    ensures RemoveTags(u + v) == u + RemoveTags(v)
  {
    hide TagLength;
    if u == "" {
      assert u + v == v;
    } else {
      assert u[0] in u && forall x <- u[1..] :: x in u;
      TextStays(u[1..], v);
      assert (u + v)[0] == u[0] && (u + v)[1..] == u[1..] + v;
      assert [u[0]] + (u[1..] + RemoveTags(v)) == u + RemoveTags(v);
    }
  }

  /** From a '<' to the next '>' all goes. */
  lemma TagIsRemoved(inner: string, rest: string)
    requires '>' !in inner
    ensures RemoveTags("<" + inner + ">" + rest) == RemoveTags(rest)
  {
    var tag := "<" + inner + ">" + rest;
    FoundFirst("<" + inner, '>', rest);
    assert tag == ("<" + inner) + ['>'] + rest;
    assert tag[0] == '<' && tag[|inner| + 2..] == rest && |inner| + 1 < |tag|;
    hide Find;
  }

  /** A '<' that no '>' follows stays, and so does all after it. */
  lemma OpenBracketStays(rest: string)
    requires '>' !in rest
    ensures RemoveTags("<" + rest) == "<" + rest
  {
    var s := "<" + rest;
    NotFound(s, '>');
    NothingToRemove(rest);
    assert s[1..] == rest;
    hide Find;
  }

  lemma {:induction false} NothingToRemove(s: string)
    requires '>' !in s
    ensures RemoveTags(s) == s
  {
    if s != "" {
      NotFound(s, '>');
      assert forall x <- s[1..] :: x in s;
      NothingToRemove(s[1..]);
    }
  }

  /** Brackets that are left over go, and no other character. */
  lemma {:induction false} BracketsAreDropped(u: string, c: char, v: string)
    ensures DropBrackets([c]) == if c == '<' || c == '>' then "" else [c]
    ensures DropBrackets(u + v) == DropBrackets(u) + DropBrackets(v)
  {
    if u == "" {
      assert u + v == v;
    } else {
      BracketsAreDropped(u[1..], c, v);
      assert (u + v)[0] == u[0] && (u + v)[1..] == u[1..] + v;
      var rest, more := DropBrackets(u[1..]), DropBrackets(v);
      assert [u[0]] + (rest + more) == ([u[0]] + rest) + more;
    }
  }

  /** Tags are removed until none is left, and then what is left of brackets. */
  function Stripped(text: string): string
    decreases |text|
  {
    RemoveTagsShrinks(text);
    if RemoveTags(text) == text then DropBrackets(text) else Stripped(RemoveTags(text))
  }

  /** A pass before changes nothing, and when a pass does nothing the brackets that are left go. */
  lemma StrippingRepeats(text: string)
    ensures Stripped(RemoveTags(text)) == Stripped(text)
    ensures RemoveTags(text) == text ==> Stripped(text) == DropBrackets(text)
  {
    hide RemoveTags, DropBrackets;
  }

  /** No bracket is left, so no tag; nothing is added or moved; and a text without brackets is not touched. */
  method StripTags(text: string) returns (r: string)
    ensures r == Stripped(text)
    ensures '<' !in r && '>' !in r
    ensures Subsequence(r, text)
    ensures '<' !in text && '>' !in text ==> r == text
  {
    hide Subsequence, RemoveTags, DropBrackets;
    var out := text;
    SubsequenceIsReflexive(text);
    var previous := out;
    RemoveTagsKeepsOrder(out);
    if '<' !in out { RemoveTagsSame(out); }
    out := RemoveTags(out);
    while out != previous
      invariant |out| <= |previous| && Subsequence(out, text) && out == RemoveTags(previous)
      invariant '<' !in text ==> out == text
      invariant Stripped(previous) == Stripped(text)
      decreases |out|, if out != previous then 1 else 0
    {
      previous := out;
      RemoveTagsKeepsOrder(previous);
      if '<' !in previous { RemoveTagsSame(previous); }
      SubsequenceTransitive(RemoveTags(previous), previous, text);
      RemoveTagsShrinks(previous);
      out := RemoveTags(previous);
    }
    DropBracketsKeepsOrder(out);
    SubsequenceTransitive(DropBrackets(out), out, text);
    if '<' !in out && '>' !in out { DropBracketsSame(out); }
    r := DropBrackets(out);
  }

  lemma {:induction false} RemoveTagsShrinks(s: string)
    ensures RemoveTags(s) == s || |RemoveTags(s)| < |s|
    decreases |s|
  {
    hide TagLength;
    if s != "" && TagLength(s) == 0 { RemoveTagsShrinks(s[1..]); }
  }

  // ----- the payload -----

  datatype Json =
    | Null
    | Bool(b: bool)
    | Number(finite: bool, text: string)
    | Str(s: string)
    | Arr(items: seq<Json>)
    | Obj(entries: seq<Entry>)
    | Other

  datatype Entry = Entry(key: string, value: Json)

  const MARKER := Str(TRUNCATED)

  function Min(a: int, b: int): int { if a <= b then a else b }

  function HasKey(entries: seq<Entry>, name: string): bool { exists e <- entries :: e.key == name }

  /** As a map does: an entry of that name is replaced where it stands, or a new one comes last. */
  function SetKey(entries: seq<Entry>, name: string, value: Json): (r: seq<Entry>)
    ensures |entries| <= |r| <= |entries| + 1
    ensures !HasKey(entries, name) ==> r == entries + [Entry(name, value)]
  {
    if entries == [] then [Entry(name, value)]
    else if entries[0].key == name then [Entry(name, value)] + entries[1..]
    else
      assert forall e <- entries[1..] :: e in entries;
      [entries[0]] + SetKey(entries[1..], name, value)
  }

  /** A node and the characters left after it. */
  function Node(scrub: Scrub, v: Json, depth: nat, chars: int): (r: (Json, int))
    requires depth <= MAX_DEPTH
    decreases MAX_DEPTH - depth, 0
  {
    match v
    case Str(s) =>
      if chars <= 0 then (if s == "" then Str("") else MARKER, chars)
      else
        var text := CleanText(scrub, s, Min(DETAIL_MAX, chars));
        (Str(text), chars - |text|)
    case Null => (v, chars)
    case Bool(_) => (v, chars)
    case Number(finite, _) => (if finite then v else Null, chars)
    case Other => (Null, chars)
    case Arr(items) =>
      if depth >= MAX_DEPTH then (MARKER, chars)
      else
        var (kept, left) := Items(scrub, items[..Min(MAX_ENTRIES, |items|)], depth + 1, chars);
        (Arr(if |items| > MAX_ENTRIES then kept + [MARKER] else kept), left)
    case Obj(entries) =>
      if depth >= MAX_DEPTH then (MARKER, chars)
      else
        var (kept, left) := Entries(scrub, entries[..Min(MAX_ENTRIES, |entries|)], depth + 1, chars);
        (Obj(if |entries| > MAX_ENTRIES then SetKey(kept, "_truncated", Bool(true)) else kept), left)
  }

  function Items(scrub: Scrub, items: seq<Json>, depth: nat, chars: int): (r: (seq<Json>, int))
    requires depth <= MAX_DEPTH
    ensures |r.0| == |items|
    decreases MAX_DEPTH - depth, |items| + 1
  {
    if items == [] then ([], chars)
    else
      var (front, left) := Items(scrub, items[..|items| - 1], depth, chars);
      var (last, left') := Node(scrub, items[|items| - 1], depth, left);
      (front + [last], left')
  }

  /** Keys are cleaned too; an entry whose key comes out empty or a second time is skipped. */
  function Entries(scrub: Scrub, entries: seq<Entry>, depth: nat, chars: int): (r: (seq<Entry>, int))
    requires depth <= MAX_DEPTH
    ensures |r.0| <= |entries|
    decreases MAX_DEPTH - depth, |entries| + 1
  {
    if entries == [] then ([], chars)
    else
      var (front, left) := Entries(scrub, entries[..|entries| - 1], depth, chars);
      var Entry(key, value) := entries[|entries| - 1];
      var name := CleanText(scrub, key, KEY_MAX);
      if name == "" || HasKey(front, name) then (front, left)
      else
        var (cleaned, left') := Node(scrub, value, depth, left);
        (front + [Entry(name, cleaned)], left')
  }

  function CleanErrorData(scrub: Scrub, v: Json): Json { Node(scrub, v, 0, DATA_MAX).0 }

  // ----- the walk in so many words -----

  /** Four hundred characters of a text, or what is left of the budget. */
  lemma TextIsExact(scrub: Scrub, s: string, depth: nat, chars: int)
    requires depth <= 6
    ensures chars <= 0 ==>
              Node(scrub, Str(s), depth, chars)
              == (Str(if s == "" then "" else ['\U{2026}'] + " [truncated]"), chars)
    ensures chars > 0 ==>
              var text := BoundText(scrub(s), if chars < 400 then chars else 400);
              Node(scrub, Str(s), depth, chars) == (Str(text), chars - |text|)
  {
    hide BoundText;
  }

  /** Plain values pass, but for a number that is none and anything that is no value. */
  lemma PlainIsExact(scrub: Scrub, b: bool, text: string, depth: nat, chars: int)
    requires depth <= 6
    ensures Node(scrub, Null, depth, chars) == (Null, chars) == Node(scrub, Other, depth, chars)
    ensures Node(scrub, Bool(b), depth, chars) == (Bool(b), chars)
    ensures Node(scrub, Number(true, text), depth, chars) == (Number(true, text), chars)
    ensures Node(scrub, Number(false, text), depth, chars) == (Null, chars)
  {}

  /** A list six levels deep is the mark; of any other the first fifty items are cleaned, with a mark for the rest. */
  lemma ListIsExact(scrub: Scrub, items: seq<Json>, depth: nat, chars: int)
    requires depth <= 6
    ensures var mark := Str(['\U{2026}'] + " [truncated]");
      Node(scrub, Arr(items), depth, chars) ==
        if depth == 6 then (mark, chars)
        else if |items| <= 50 then
          (Arr(Items(scrub, items, depth + 1, chars).0), Items(scrub, items, depth + 1, chars).1)
        else
          (Arr(Items(scrub, items[..50], depth + 1, chars).0 + [mark]), Items(scrub, items[..50], depth + 1, chars).1)
  {
    assert |items| <= 50 ==> items[..|items|] == items;
    hide Items;
  }

  /** An object likewise; the rest is marked by an entry. */
  lemma ObjectIsExact(scrub: Scrub, entries: seq<Entry>, depth: nat, chars: int)
    requires depth <= 6
    ensures Node(scrub, Obj(entries), depth, chars) ==
      if depth == 6 then (Str(['\U{2026}'] + " [truncated]"), chars)
      else if |entries| <= 50 then
        (Obj(Entries(scrub, entries, depth + 1, chars).0), Entries(scrub, entries, depth + 1, chars).1)
      else
        (Obj(SetKey(Entries(scrub, entries[..50], depth + 1, chars).0, "_truncated", Bool(true))),
         Entries(scrub, entries[..50], depth + 1, chars).1)
  {
    assert |entries| <= 50 ==> entries[..|entries|] == entries;
    hide Entries, SetKey;
  }

  /** One more item is cleaned with what the ones before it left of the budget. */
  lemma ItemsInTurn(scrub: Scrub, items: seq<Json>, item: Json, depth: nat, chars: int)
    requires depth <= 6
    ensures var (front, left) := Items(scrub, items, depth, chars);
      var (last, left') := Node(scrub, item, depth, left);
      Items(scrub, items + [item], depth, chars) == (front + [last], left')
    ensures Items(scrub, [], depth, chars) == ([], chars)
  {
    hide Node;
    assert (items + [item])[..|items|] == items;
  }

  /** So is one more entry, under at most a hundred characters of its key, unless that is empty or taken. */
  lemma EntriesInTurn(scrub: Scrub, entries: seq<Entry>, e: Entry, depth: nat, chars: int)
    requires depth <= 6
    ensures var (front, left) := Entries(scrub, entries, depth, chars);
      var name := BoundText(scrub(e.key), 100);
      var (last, left') := Node(scrub, e.value, depth, left);
      Entries(scrub, entries + [e], depth, chars) ==
        if name == "" || exists x <- front :: x.key == name then (front, left)
        else (front + [Entry(name, last)], left')
    ensures Entries(scrub, [], depth, chars) == ([], chars)
  {
    hide Node, BoundText;
    assert (entries + [e])[..|entries|] == entries;
  }

  /** A key that is there keeps its place and gets the value; a new one comes last. */
  lemma {:induction false} KeyIsSet(u: seq<Entry>, first: Json, v: seq<Entry>, name: string, value: Json)
    requires forall e <- u :: e.key != name
    ensures SetKey(u, name, value) == u + [Entry(name, value)]
    ensures SetKey(u + ([Entry(name, first)] + v), name, value) == u + ([Entry(name, value)] + v)
  {
    var was, now := [Entry(name, first)] + v, [Entry(name, value)] + v;
    assert was[0] == Entry(name, first) && was[1..] == v;
    if u == [] {
      assert u + was == was && u + now == now;
    } else {
      assert u[0] in u && forall e <- u[1..] :: e in u;
      KeyIsSet(u[1..], first, v, name, value);
      FirstStays(u, was, now, name, value);
    }
  }

  lemma FirstStays(u: seq<Entry>, was: seq<Entry>, now: seq<Entry>, name: string, value: Json)
    requires u != [] && u[0].key != name
    requires SetKey(u[1..] + was, name, value) == u[1..] + now
    ensures SetKey(u + was, name, value) == u + now
  {
    hide HasKey;
    assert (u + was)[0] == u[0] && (u + was)[1..] == u[1..] + was;
    assert [u[0]] + (u[1..] + now) == u + now;
  }

  lemma BudgetIsExact(scrub: Scrub, v: Json)
    ensures CleanErrorData(scrub, v) == Node(scrub, v, 0, 4000).0
  {
    hide Node;
  }

  // ----- what comes out is bounded -----

  /** Containers nest at most `levels` deep, and none has more than the kept entries and one marker. */
  ghost predicate Bounded(j: Json, levels: nat)
    decreases levels
  {
    match j
    case Arr(items) =>
      && levels > 0 && |items| <= MAX_ENTRIES + 1
      && (|items| == MAX_ENTRIES + 1 ==> items[MAX_ENTRIES] == MARKER)
      && forall item <- items :: Bounded(item, levels - 1)
    case Obj(entries) =>
      && levels > 0 && |entries| <= MAX_ENTRIES + 1
      && (|entries| == MAX_ENTRIES + 1 ==> entries[MAX_ENTRIES] == Entry("_truncated", Bool(true)))
      && DistinctKeys(entries)
      && forall e <- entries :: 0 < |e.key| <= KEY_MAX + |TRUNCATED| && Bounded(e.value, levels - 1)
    case Number(finite, _) => finite
    case Other => false
    case _ => true
  }

  predicate DistinctKeys(entries: seq<Entry>) {
    forall i, j :: 0 <= i < j < |entries| ==> entries[i].key != entries[j].key
  }

  ghost predicate BoundedItems(items: seq<Json>, levels: nat) { forall item <- items :: Bounded(item, levels) }

  ghost predicate BoundedEntries(entries: seq<Entry>, levels: nat) {
    DistinctKeys(entries) && forall e <- entries :: 0 < |e.key| <= KEY_MAX + |TRUNCATED| && Bounded(e.value, levels)
  }

  lemma NodeIsBounded(scrub: Scrub, v: Json, depth: nat, chars: int)
    requires depth <= MAX_DEPTH
    ensures Bounded(Node(scrub, v, depth, chars).0, MAX_DEPTH - depth)
    decreases MAX_DEPTH - depth, 0
  {
    hide CleanText, SetKey, Items, Entries, BoundedItems, BoundedEntries;
    if depth < MAX_DEPTH {
      match v
      case Arr(items) =>
        ItemsAreBounded(scrub, items[..Min(MAX_ENTRIES, |items|)], depth + 1, chars);
        ArrIsBounded(Items(scrub, items[..Min(MAX_ENTRIES, |items|)], depth + 1, chars).0, MAX_DEPTH - depth);
      case Obj(entries) =>
        EntriesAreBounded(scrub, entries[..Min(MAX_ENTRIES, |entries|)], depth + 1, chars);
        ObjIsBounded(Entries(scrub, entries[..Min(MAX_ENTRIES, |entries|)], depth + 1, chars).0, MAX_DEPTH - depth);
      case _ =>
    }
  }

  lemma ArrIsBounded(kept: seq<Json>, levels: nat)
    requires levels > 0 && |kept| <= MAX_ENTRIES && BoundedItems(kept, levels - 1)
    ensures Bounded(Arr(kept), levels)
    ensures |kept| == MAX_ENTRIES ==> Bounded(Arr(kept + [MARKER]), levels)
  {}

  lemma ObjIsBounded(kept: seq<Entry>, levels: nat)
    requires levels > 0 && |kept| <= MAX_ENTRIES && BoundedEntries(kept, levels - 1)
    ensures Bounded(Obj(kept), levels)
    ensures Bounded(Obj(SetKey(kept, "_truncated", Bool(true))), levels)
  {
    hide SetKey, DistinctKeys, HasKey;
    SetKeyIsBounded(kept, levels - 1);
    SetKeyAtEnd(kept, "_truncated", Bool(true));
  }

  lemma {:induction false} ItemsAreBounded(scrub: Scrub, items: seq<Json>, depth: nat, chars: int)
    requires depth <= MAX_DEPTH
    ensures BoundedItems(Items(scrub, items, depth, chars).0, MAX_DEPTH - depth)
    decreases MAX_DEPTH - depth, |items| + 1
  {
    hide Node, Bounded;
    if items != [] {
      var front := items[..|items| - 1];
      ItemsAreBounded(scrub, front, depth, chars);
      NodeIsBounded(scrub, items[|items| - 1], depth, Items(scrub, front, depth, chars).1);
    }
  }

  lemma {:induction false} EntriesAreBounded(scrub: Scrub, entries: seq<Entry>, depth: nat, chars: int)
    requires depth <= MAX_DEPTH
    ensures BoundedEntries(Entries(scrub, entries, depth, chars).0, MAX_DEPTH - depth)
    decreases MAX_DEPTH - depth, |entries| + 1
  {
    hide Node, Bounded, CleanText;
    if entries != [] {
      var front := entries[..|entries| - 1];
      EntriesAreBounded(scrub, front, depth, chars);
      NodeIsBounded(scrub, entries[|entries| - 1].value, depth, Entries(scrub, front, depth, chars).1);
    }
  }

  lemma {:induction false} SetKeyAtEnd(entries: seq<Entry>, name: string, value: Json)
    ensures |SetKey(entries, name, value)| == |entries| + 1 ==> !HasKey(entries, name)
  {
    if entries != [] { SetKeyAtEnd(entries[1..], name, value); }
  }

  lemma {:induction false} SetKeyElements(entries: seq<Entry>, name: string, value: Json)
    ensures forall e <- SetKey(entries, name, value) :: e in entries || e == Entry(name, value)
  {
    if entries != [] {
      SetKeyElements(entries[1..], name, value);
      assert forall e <- entries[1..] :: e in entries;
    }
  }

  lemma {:induction false} SetKeyKeepsDistinct(entries: seq<Entry>, name: string, value: Json)
    requires DistinctKeys(entries)
    ensures DistinctKeys(SetKey(entries, name, value))
  {
    if entries != [] && entries[0].key != name {
      SetKeyKeepsDistinct(entries[1..], name, value);
      SetKeyElements(entries[1..], name, value);
      var rest := SetKey(entries[1..], name, value);
      assert forall j :: 0 <= j < |rest| ==> rest[j] in entries[1..] || rest[j] == Entry(name, value);
      assert forall e <- entries[1..] :: e.key != entries[0].key;
    }
  }

  lemma SetKeyIsBounded(entries: seq<Entry>, levels: nat)
    requires BoundedEntries(entries, levels)
    ensures BoundedEntries(SetKey(entries, "_truncated", Bool(true)), levels)
  {
    hide SetKey, DistinctKeys;
    SetKeyElements(entries, "_truncated", Bool(true));
    SetKeyKeepsDistinct(entries, "_truncated", Bool(true));
  }

  // ----- the text is bounded -----

  /** The text of a payload in characters, with the markers or without. */
  function Weight(j: Json, markers: bool): nat
    decreases j
  {
    match j
    case Str(s) => if s == TRUNCATED && !markers then 0 else |s|
    case Arr(items) => ItemsWeight(items, markers)
    case Obj(entries) => EntriesWeight(entries, markers)
    case _ => 0
  }

  function ItemsWeight(items: seq<Json>, markers: bool): nat
    decreases items
  {
    if items == [] then 0 else Weight(items[0], markers) + ItemsWeight(items[1..], markers)
  }

  function EntriesWeight(entries: seq<Entry>, markers: bool): nat
    decreases entries
  {
    if entries == [] then 0 else Weight(entries[0].value, markers) + EntriesWeight(entries[1..], markers)
  }

  lemma {:induction false} ItemsWeightAppend(items: seq<Json>, last: Json, markers: bool)
    ensures ItemsWeight(items + [last], markers) == ItemsWeight(items, markers) + Weight(last, markers)
  {
    if items == [] {
      assert [] + [last] == [last] && [last][1..] == [];
    } else {
      ItemsWeightAppend(items[1..], last, markers);
      assert (items + [last])[1..] == items[1..] + [last];
    }
  }

  lemma {:induction false} EntriesWeightAppend(entries: seq<Entry>, last: Entry, markers: bool)
    ensures EntriesWeight(entries + [last], markers) == EntriesWeight(entries, markers) + Weight(last.value, markers)
  {
    if entries == [] {
      assert [] + [last] == [last] && [last][1..] == [];
    } else {
      EntriesWeightAppend(entries[1..], last, markers);
      assert (entries + [last])[1..] == entries[1..] + [last];
    }
  }

  lemma {:induction false} SetKeyWeight(entries: seq<Entry>, name: string, b: bool)
    ensures EntriesWeight(SetKey(entries, name, Bool(b)), false) <= EntriesWeight(entries, false)
  {
    if entries == [] {
      assert [Entry(name, Bool(b))][1..] == [];
    } else if entries[0].key == name {
      assert ([Entry(name, Bool(b))] + entries[1..])[1..] == entries[1..];
    } else {
      SetKeyWeight(entries[1..], name, b);
      assert SetKey(entries, name, Bool(b))[1..] == SetKey(entries[1..], name, Bool(b));
    }
  }

  /** What a node may cost: its text is paid for, and the budget is overdrawn by one suffix at most. */
  ghost predicate Paid(weight: nat, before: int, after: int) {
    && after <= before
    && weight <= before - after
    && (before <= 0 ==> after == before)
    && (before >= 0 ==> after >= -|TRUNCATED|)
  }

  lemma PaidTwice(w: nat, w': nat, before: int, between: int, after: int)
    requires Paid(w, before, between) && Paid(w', between, after)
    ensures Paid(w + w', before, after)
  {}

  lemma NodeIsPaid(scrub: Scrub, v: Json, depth: nat, chars: int)
    requires depth <= MAX_DEPTH
    ensures var (out, left) := Node(scrub, v, depth, chars); Paid(Weight(out, false), chars, left)
    decreases MAX_DEPTH - depth, 0
  {
    hide CleanText, SetKey, HasKey, ItemsWeight, EntriesWeight;
    if depth < MAX_DEPTH {
      match v
      case Arr(items) =>
        ItemsArePaid(scrub, items[..Min(MAX_ENTRIES, |items|)], depth + 1, chars);
        ItemsWeightAppend(Items(scrub, items[..Min(MAX_ENTRIES, |items|)], depth + 1, chars).0, MARKER, false);
      case Obj(entries) =>
        EntriesArePaid(scrub, entries[..Min(MAX_ENTRIES, |entries|)], depth + 1, chars);
        SetKeyWeight(Entries(scrub, entries[..Min(MAX_ENTRIES, |entries|)], depth + 1, chars).0, "_truncated", true);
      case _ =>
    }
  }

  lemma {:induction false} ItemsArePaid(scrub: Scrub, items: seq<Json>, depth: nat, chars: int)
    requires depth <= MAX_DEPTH
    ensures var (out, left) := Items(scrub, items, depth, chars); Paid(ItemsWeight(out, false), chars, left)
    decreases MAX_DEPTH - depth, |items| + 1
  {
    hide Node, Weight, Paid;
    if items == [] {
      NothingIsPaid(chars);
    } else {
      var (front, left) := Items(scrub, items[..|items| - 1], depth, chars);
      ItemsArePaid(scrub, items[..|items| - 1], depth, chars);
      NodeIsPaid(scrub, items[|items| - 1], depth, left);
      var (last, left') := Node(scrub, items[|items| - 1], depth, left);
      PaidTwice(ItemsWeight(front, false), Weight(last, false), chars, left, left');
      ItemsWeightAppend(front, last, false);
    }
  }

  lemma {:induction false} EntriesArePaid(scrub: Scrub, entries: seq<Entry>, depth: nat, chars: int)
    requires depth <= MAX_DEPTH
    ensures var (out, left) := Entries(scrub, entries, depth, chars); Paid(EntriesWeight(out, false), chars, left)
    decreases MAX_DEPTH - depth, |entries| + 1
  {
    hide Node, Weight, Paid, HasKey, CleanText;
    if entries == [] {
      NothingIsPaid(chars);
    } else {
      var (front, left) := Entries(scrub, entries[..|entries| - 1], depth, chars);
      EntriesArePaid(scrub, entries[..|entries| - 1], depth, chars);
      var Entry(key, value) := entries[|entries| - 1];
      var name := CleanText(scrub, key, KEY_MAX);
      NodeIsPaid(scrub, value, depth, left);
      var (cleaned, left') := Node(scrub, value, depth, left);
      PaidTwice(EntriesWeight(front, false), Weight(cleaned, false), chars, left, left');
      EntriesWeightAppend(front, Entry(name, cleaned), false);
    }
  }

  lemma NothingIsPaid(chars: int)
    ensures Paid(0, chars, chars) && ItemsWeight([], false) == 0 && EntriesWeight([], false) == 0
  {}

  /**
   * A cleaned payload, whatever came in: six levels, fifty entries and a marker each, 4000 characters and one suffix.
   */
  lemma CleanErrorDataIsBounded(scrub: Scrub, v: Json)
    ensures Bounded(CleanErrorData(scrub, v), MAX_DEPTH)
    ensures Weight(CleanErrorData(scrub, v), false) <= DATA_MAX + |TRUNCATED|
  {
    hide Node, Weight, Bounded;
    NodeIsBounded(scrub, v, 0, DATA_MAX);
    NodeIsPaid(scrub, v, 0, DATA_MAX);
  }

  /** What the bounds mean for a list, an object and anything else. */
  lemma BoundedExactly(j: Json, levels: nat)
    ensures j.Arr? ==> (Bounded(j, levels) <==>
              && levels >= 1 && |j.items| <= 51 && (forall item <- j.items :: Bounded(item, levels - 1))
              && (|j.items| == 51 ==> j.items[50] == Str(['\U{2026}'] + " [truncated]")))
    ensures j.Obj? ==> (Bounded(j, levels) <==>
              && levels >= 1 && |j.entries| <= 51
              && (|j.entries| == 51 ==> j.entries[50] == Entry("_truncated", Bool(true)))
              && (forall e <- j.entries :: 1 <= |e.key| <= 113 && Bounded(e.value, levels - 1))
              && (forall i, k :: 0 <= i < k < |j.entries| ==> j.entries[i].key != j.entries[k].key))
    ensures !j.Arr? && !j.Obj? ==> (Bounded(j, levels) <==> j != Other && (j.Number? ==> j.finite))
  {}

  /** Once the budget is used up, every further string comes out empty or as the marker. */
  lemma SpentBudgetKeepsNothing(scrub: Scrub, v: Json, depth: nat, chars: int)
    requires depth <= MAX_DEPTH && chars <= 0
    ensures Weight(Node(scrub, v, depth, chars).0, false) == 0 && Node(scrub, v, depth, chars).1 == chars
  {
    hide Node, Weight;
    NodeIsPaid(scrub, v, depth, chars);
  }

  // ----- what is within the bounds is kept -----

  /** A payload that is clean and within every bound but that of its total text. */
  ghost predicate Tidy(scrub: Scrub, j: Json, levels: nat)
    decreases levels
  {
    match j
    case Str(s) => scrub(s) == s && |s| <= DETAIL_MAX
    case Number(finite, _) => finite
    case Arr(items) => levels > 0 && |items| <= MAX_ENTRIES && forall item <- items :: Tidy(scrub, item, levels - 1)
    case Obj(entries) =>
      && levels > 0 && |entries| <= MAX_ENTRIES && DistinctKeys(entries)
      && forall e <- entries ::
           0 < |e.key| <= KEY_MAX && scrub(e.key) == e.key && Tidy(scrub, e.value, levels - 1)
    case Other => false
    case _ => true
  }

  ghost predicate TidyItems(scrub: Scrub, items: seq<Json>, levels: nat) {
    forall item <- items :: Tidy(scrub, item, levels)
  }

  ghost predicate TidyEntries(scrub: Scrub, entries: seq<Entry>, levels: nat) {
    DistinctKeys(entries)
    && forall e <- entries :: 0 < |e.key| <= KEY_MAX && scrub(e.key) == e.key && Tidy(scrub, e.value, levels)
  }

  lemma TidyNodeIsKept(scrub: Scrub, v: Json, depth: nat, chars: int)
    requires depth <= MAX_DEPTH && Tidy(scrub, v, MAX_DEPTH - depth) && Weight(v, true) <= chars
    ensures Node(scrub, v, depth, chars) == (v, chars - Weight(v, true))
    decreases MAX_DEPTH - depth, 0
  {
    hide SetKey, Items, Entries, ItemsWeight, EntriesWeight;
    match v
    case Arr(items) =>
      assert items[..Min(MAX_ENTRIES, |items|)] == items;
      TidyItemsAreKept(scrub, items, depth + 1, chars);
    case Obj(entries) =>
      assert entries[..Min(MAX_ENTRIES, |entries|)] == entries;
      TidyEntriesAreKept(scrub, entries, depth + 1, chars);
    case _ =>
  }

  lemma {:induction false} TidyItemsAreKept(scrub: Scrub, items: seq<Json>, depth: nat, chars: int)
    requires depth <= MAX_DEPTH && TidyItems(scrub, items, MAX_DEPTH - depth) && ItemsWeight(items, true) <= chars
    ensures Items(scrub, items, depth, chars) == (items, chars - ItemsWeight(items, true))
    decreases MAX_DEPTH - depth, |items| + 1
  {
    hide Node, Tidy, Weight;
    if items != [] {
      var front, last := items[..|items| - 1], items[|items| - 1];
      assert items == front + [last];
      ItemsWeightAppend(front, last, true);
      TidyItemsAreKept(scrub, front, depth, chars);
      TidyNodeIsKept(scrub, last, depth, chars - ItemsWeight(front, true));
    }
  }

  lemma TidyKeyIsKept(scrub: Scrub, key: string)
    requires scrub(key) == key && |key| <= KEY_MAX
    ensures CleanText(scrub, key, KEY_MAX) == key
  {}

  lemma TidyFront(scrub: Scrub, front: seq<Entry>, last: Entry, levels: nat)
    requires TidyEntries(scrub, front + [last], levels)
    ensures TidyEntries(scrub, front, levels) && Tidy(scrub, last.value, levels) && !HasKey(front, last.key)
    ensures 0 < |last.key| <= KEY_MAX && scrub(last.key) == last.key
  {
    hide Tidy;
    var entries := front + [last];
    assert entries[|front|] == last;
    assert forall e <- front :: e in entries;
    assert forall i :: 0 <= i < |front| ==> entries[i] == front[i];
  }

  lemma EntryIsKept(
    scrub: Scrub, front: seq<Entry>, last: Entry, depth: nat, chars: int, left: int, left': int)
    requires depth <= MAX_DEPTH && Entries(scrub, front, depth, chars) == (front, left)
    requires CleanText(scrub, last.key, KEY_MAX) == last.key != "" && !HasKey(front, last.key)
    requires Node(scrub, last.value, depth, left) == (last.value, left')
    ensures Entries(scrub, front + [last], depth, chars) == (front + [last], left')
  {
    hide Node, CleanText, HasKey;
    assert (front + [last])[..|front|] == front;
  }

  lemma {:induction false} TidyEntriesAreKept(scrub: Scrub, entries: seq<Entry>, depth: nat, chars: int)
    requires depth <= MAX_DEPTH && TidyEntries(scrub, entries, MAX_DEPTH - depth)
    requires EntriesWeight(entries, true) <= chars
    ensures Entries(scrub, entries, depth, chars) == (entries, chars - EntriesWeight(entries, true))
    decreases MAX_DEPTH - depth, |entries| + 1
  {
    hide Node, Tidy, Weight, CleanText, HasKey, TidyEntries;
    if entries == [] {
    } else {
      var front, last := entries[..|entries| - 1], entries[|entries| - 1];
      assert entries == front + [last];
      EntriesWeightAppend(front, last, true);
      hide EntriesWeight, Entries;
      TidyFront(scrub, front, last, MAX_DEPTH - depth);
      TidyKeyIsKept(scrub, last.key);
      TidyEntriesAreKept(scrub, front, depth, chars);
      var left := chars - EntriesWeight(front, true);
      TidyNodeIsKept(scrub, last.value, depth, left);
      EntryIsKept(scrub, front, last, depth, chars, left, left - Weight(last.value, true));
    }
  }

  /** A clean payload within the bounds comes out as it went in: nothing is cut that need not be. */
  lemma CleanErrorDataKeepsTidy(scrub: Scrub, v: Json)
    requires Tidy(scrub, v, MAX_DEPTH) && Weight(v, true) <= DATA_MAX
    ensures CleanErrorData(scrub, v) == v
  {
    hide Node, Tidy, Weight;
    TidyNodeIsKept(scrub, v, 0, DATA_MAX);
  }

  // ----- the walk with its shared budget -----

  class Budget {
    var chars: int

    constructor (chars: int)
      ensures this.chars == chars
    {
      this.chars := chars;
    }
  }

  method CleanErrorNode(scrub: Scrub, v: Json, depth: nat, budget: Budget) returns (out: Json)
    requires depth <= MAX_DEPTH
    modifies budget
    ensures (out, budget.chars) == Node(scrub, v, depth, old(budget.chars))
    decreases MAX_DEPTH - depth, 0
  {
    hide Items, Entries, CleanText, SetKey;
    match v
    case Str(s) =>
      if budget.chars <= 0 { return if s != "" then MARKER else Str(""); }
      var text := CleanText(scrub, s, Min(DETAIL_MAX, budget.chars));
      budget.chars := budget.chars - |text|;
      return Str(text);
    case Null => return v;
    case Bool(_) => return v;
    case Number(finite, _) => return if finite then v else Null;
    case Other => return Null;
    case Arr(items) =>
      if depth >= MAX_DEPTH { return MARKER; }
      var kept := CleanItems(scrub, items[..Min(MAX_ENTRIES, |items|)], depth + 1, budget);
      if |items| > MAX_ENTRIES { kept := kept + [MARKER]; }
      return Arr(kept);
    case Obj(entries) =>
      if depth >= MAX_DEPTH { return MARKER; }
      var kept := CleanEntries(scrub, entries[..Min(MAX_ENTRIES, |entries|)], depth + 1, budget);
      if |entries| > MAX_ENTRIES { kept := SetKey(kept, "_truncated", Bool(true)); }
      return Obj(kept);
  }

  method CleanItems(scrub: Scrub, items: seq<Json>, depth: nat, budget: Budget) returns (kept: seq<Json>)
    requires depth <= MAX_DEPTH
    modifies budget
    ensures (kept, budget.chars) == Items(scrub, items, depth, old(budget.chars))
    decreases MAX_DEPTH - depth, |items| + 1
  {
    hide Node;
    kept := [];
    for i := 0 to |items|
      invariant (kept, budget.chars) == Items(scrub, items[..i], depth, old(budget.chars))
    {
      assert items[..i + 1][..i] == items[..i];
      var item := CleanErrorNode(scrub, items[i], depth, budget);
      kept := kept + [item];
    }
    assert items[..|items|] == items;
  }

  method CleanEntries(scrub: Scrub, entries: seq<Entry>, depth: nat, budget: Budget) returns (kept: seq<Entry>)
    requires depth <= MAX_DEPTH
    modifies budget
    ensures (kept, budget.chars) == Entries(scrub, entries, depth, old(budget.chars))
    decreases MAX_DEPTH - depth, |entries| + 1
  {
    hide Node, CleanText;
    kept := [];
    for i := 0 to |entries|
      invariant (kept, budget.chars) == Entries(scrub, entries[..i], depth, old(budget.chars))
    {
      assert entries[..i + 1][..i] == entries[..i];
      var name := CleanText(scrub, entries[i].key, KEY_MAX);
      if name != "" && !HasKey(kept, name) {
        var value := CleanErrorNode(scrub, entries[i].value, depth, budget);
        kept := kept + [Entry(name, value)];
      }
    }
    assert entries[..|entries|] == entries;
  }
}
