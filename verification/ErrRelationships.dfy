/**
 * Giving every paragraph reference of a relationships map its revision before a host is written. All references are
 * looked at; if one cannot be resolved, nothing is returned.
 */
module ErrRelationships {
  import opened Common

  type Uuid = string

  /** Values that are carried along and never looked into. */
  type Content = string

  /** A revision as it is given: none (also null and the empty text), a text, or a finite number. */
  datatype Revision = Absent | Text(text: string) | Number(n: int)

  /** `other` are the further keys of `meta`. A `meta` that is no object is dropped by the copy. */
  datatype Meta = NoMeta | NotAnObject | Meta(revision: Revision, other: Content)

  datatype Item =
    | Malformed
    | Untyped
    | Ref(kind: string, id: Uuid, meta: Meta, extra: Content)

  const NO_EXTRA: Content := ""
  const NO_OTHER: Content := ""

  datatype Data = Cleared | Many(items: seq<Item>) | One(item: Item)

  /** A relationship without `data` is passed on as it is; `rest` are the keys beside `data`. */
  datatype Relationship = Opaque(content: Content) | Linked(data: Data, rest: Content)

  datatype Field = Field(name: string, rel: Relationship)

  datatype Reply = Found(revision: Option<int>) | NotFound | ReadFailed

  /** `number` reads a text as a finite number, if it is one; `read` answers a read after those made before. */
  datatype Backend = Backend(number: string -> Option<int>, read: (seq<Uuid>, string, Uuid) -> Reply)

  /** `cache` is shared with the caller; `fetched` is the history of the paragraphs read. */
  datatype State = State(cache: map<Uuid, int>, fetched: seq<Uuid>, unresolved: seq<Item>)

  predicate IsParagraph(kind: string) { "paragraph--" <= kind }

  function Clone(item: Item): Item
    requires item.Ref?
  {
    Ref(item.kind, item.id, if item.meta.Meta? then item.meta else NoMeta, NO_EXTRA)
  }

  function Given(b: Backend, item: Item): Option<int>
    requires item.Ref?
  {
    if !item.meta.Meta? then None
    else
      match item.meta.revision
      case Absent => None
      case Text(text) => b.number(text)
      case Number(n) => Some(n)
  }

  function Other(meta: Meta): Content { if meta.Meta? then meta.other else NO_OTHER }

  function Stamp(item: Item, n: int): Item
    requires item.Ref?
  {
    Ref(item.kind, item.id, Meta(Number(n), Other(item.meta)), NO_EXTRA)
  }

  function ResolveOne(b: Backend, item: Item, s: State): (Item, State) {
    if !item.Ref? then (item, s.(unresolved := s.unresolved + [item]))
    else if !IsParagraph(item.kind) then (Clone(item), s)
    else if Given(b, item).Some? then
      (Stamp(item, Given(b, item).value), s.(cache := s.cache[item.id := Given(b, item).value]))
    else if item.id in s.cache then (Stamp(item, s.cache[item.id]), s)
    else
      var s' := s.(fetched := s.fetched + [item.id]);
      match b.read(s.fetched, item.kind, item.id)
      case Found(revision) =>
        if revision.Some? then (Stamp(item, revision.value), s'.(cache := s.cache[item.id := revision.value]))
        else (Clone(item), s'.(unresolved := s.unresolved + [item]))
      case _ => (Clone(item), s'.(unresolved := s.unresolved + [item]))
  }

  function ResolveItems(b: Backend, items: seq<Item>, s: State): (r: (seq<Item>, State))
    ensures |r.0| == |items|
  {
    if items == [] then ([], s)
    else
      var (front, s1) := ResolveItems(b, items[..|items| - 1], s);
      var (last, s2) := ResolveOne(b, items[|items| - 1], s1);
      (front + [last], s2)
  }

  function ResolveRel(b: Backend, rel: Relationship, s: State): (Relationship, State) {
    if rel.Opaque? then (rel, s)
    else
      match rel.data
      case Cleared => (rel, s)
      case Many(items) => var (r, s') := ResolveItems(b, items, s); (Linked(Many(r), rel.rest), s')
      case One(item) => var (r, s') := ResolveOne(b, item, s); (Linked(One(r), rel.rest), s')
  }

  function ResolveFields(b: Backend, fields: seq<Field>, s: State): (r: (seq<Field>, State))
    ensures |r.0| == |fields|
  {
    if fields == [] then ([], s)
    else
      var (front, s1) := ResolveFields(b, fields[..|fields| - 1], s);
      var last := fields[|fields| - 1];
      var (rel, s2) := ResolveRel(b, last.rel, s1);
      (front + [Field(last.name, rel)], s2)
  }

  /** The resolved map and the paragraphs read for it, or the references that could not be resolved. */
  function Resolve(b: Backend, fields: seq<Field>, cache: map<Uuid, int>): Result<(seq<Field>, seq<Uuid>), seq<Item>> {
    var (resolved, s) := ResolveFields(b, fields, State(cache, [], []));
    if s.unresolved != [] then Err(s.unresolved) else Ok((resolved, s.fetched))
  }

  // ----- what a resolved map keeps -----

  /** The same reference; a paragraph has a number for its revision, and anything else is only copied. */
  predicate ItemKept(b: Backend, item: Item, out: Item) {
    && item.Ref? && out.Ref?
    && if IsParagraph(item.kind)
       then && out.meta.Meta? && out.meta.revision.Number? && out == Stamp(item, out.meta.revision.n)
            && (Given(b, item).Some? ==> out.meta.revision.n == Given(b, item).value)
       else out == Clone(item)
  }

  predicate ItemsKept(b: Backend, items: seq<Item>, out: seq<Item>) {
    |out| == |items| && forall i :: 0 <= i < |items| ==> ItemKept(b, items[i], out[i])
  }

  predicate RelKept(b: Backend, rel: Relationship, out: Relationship) {
    match rel
    case Opaque(_) => out == rel
    case Linked(data, rest) =>
      && out.Linked? && out.rest == rest
      && match data
         case Cleared => out.data.Cleared?
         case Many(items) => out.data.Many? && ItemsKept(b, items, out.data.items)
         case One(item) => out.data.One? && ItemKept(b, item, out.data.item)
  }

  predicate FieldsKept(b: Backend, fields: seq<Field>, out: seq<Field>) {
    && |out| == |fields|
    && forall i :: 0 <= i < |fields| ==> out[i].name == fields[i].name && RelKept(b, fields[i].rel, out[i].rel)
  }

  /** While nothing is unresolved, a paragraph that was read is in the cache, so none is read twice. */
  ghost predicate Tidy(s: State) {
    s.unresolved == [] ==>
      && (forall id <- s.fetched :: id in s.cache)
      && forall i, j :: 0 <= i < j < |s.fetched| ==> s.fetched[i] != s.fetched[j]
  }

  ghost predicate Grows(s: State, s': State) {
    s.unresolved <= s'.unresolved && s.fetched <= s'.fetched && s.cache.Keys <= s'.cache.Keys
  }

  lemma OneIsKept(b: Backend, item: Item, s: State)
    requires Tidy(s)
    ensures var (out, s') := ResolveOne(b, item, s);
      && Tidy(s') && Grows(s, s')
      && (s'.unresolved == s.unresolved ==> ItemKept(b, item, out))
      && (s'.unresolved == s.unresolved && IsParagraph(item.kind) ==>
            item.id in s'.cache && s'.cache[item.id] == out.meta.revision.n)
  {
    hide IsParagraph, Given;
  }

  lemma {:induction false} ItemsAreKept(b: Backend, items: seq<Item>, s: State)
    requires Tidy(s)
    ensures var (out, s') := ResolveItems(b, items, s);
      Tidy(s') && Grows(s, s') && (s'.unresolved == s.unresolved ==> ItemsKept(b, items, out))
  {
    hide ResolveOne, ItemKept, Tidy;
    if items != [] {
      var front := items[..|items| - 1];
      ItemsAreKept(b, front, s);
      OneIsKept(b, items[|items| - 1], ResolveItems(b, front, s).1);
    }
  }

  lemma RelIsKept(b: Backend, rel: Relationship, s: State)
    requires Tidy(s)
    ensures var (out, s') := ResolveRel(b, rel, s);
      Tidy(s') && Grows(s, s') && (s'.unresolved == s.unresolved ==> RelKept(b, rel, out))
  {
    hide ResolveOne, ResolveItems, ItemKept, ItemsKept, Tidy;
    if rel.Linked? {
      match rel.data
      case Many(items) => ItemsAreKept(b, items, s);
      case One(item) => OneIsKept(b, item, s);
      case Cleared =>
    }
  }

  lemma {:induction false} FieldsAreKept(b: Backend, fields: seq<Field>, s: State)
    requires Tidy(s)
    ensures var (out, s') := ResolveFields(b, fields, s);
      Tidy(s') && Grows(s, s') && (s'.unresolved == s.unresolved ==> FieldsKept(b, fields, out))
  {
    hide ResolveRel, RelKept, Tidy;
    if fields != [] {
      var front := fields[..|fields| - 1];
      FieldsAreKept(b, front, s);
      RelIsKept(b, fields[|fields| - 1].rel, ResolveFields(b, front, s).1);
    }
  }

  /**
   * All or nothing: a map that is returned has the fields, the order, the lengths and the clears of the given one, a
   * number for the revision of every paragraph, and took at most one read for each paragraph.
   */
  lemma ResolveKeepsAll(b: Backend, fields: seq<Field>, cache: map<Uuid, int>)
    ensures var r := Resolve(b, fields, cache);
      match r
      case Ok((out, fetched)) =>
        FieldsKept(b, fields, out) && (forall i, j :: 0 <= i < j < |fetched| ==> fetched[i] != fetched[j])
      case Err(unresolved) => unresolved != []
  {
    hide ResolveFields, FieldsKept;
    FieldsAreKept(b, fields, State(cache, [], []));
  }

  // ----- when nothing changes -----

  /** A copied reference equals the given one exactly when it has no further keys and its `meta` is no plain value. */
  lemma CopyIsEqualExactly(item: Item)
    requires item.Ref?
    ensures Clone(item) == item <==> item.extra == NO_EXTRA && !item.meta.NotAnObject?
  {}

  /** No further keys, `meta` an object or absent, and a paragraph already has a number for its revision. */
  predicate IsSettled(item: Item) {
    && item.Ref? && item.extra == NO_EXTRA && !item.meta.NotAnObject?
    && (IsParagraph(item.kind) ==> item.meta.Meta? && item.meta.revision.Number?)
  }

  predicate AllSettled(items: seq<Item>) { forall i :: 0 <= i < |items| ==> IsSettled(items[i]) }

  predicate IsSettledRel(rel: Relationship) {
    rel.Linked? ==>
      match rel.data
      case Cleared => true
      case Many(items) => AllSettled(items)
      case One(item) => IsSettled(item)
  }

  predicate IsSettledMap(fields: seq<Field>) { forall i :: 0 <= i < |fields| ==> IsSettledRel(fields[i].rel) }

  lemma KeptIsEqualExactly(b: Backend, item: Item, out: Item)
    requires ItemKept(b, item, out)
    ensures out == item <==> IsSettled(item)
  {
    hide IsParagraph;
    CopyIsEqualExactly(item);
  }

  lemma RelIsEqualExactly(b: Backend, rel: Relationship, out: Relationship)
    requires RelKept(b, rel, out)
    ensures out == rel <==> IsSettledRel(rel)
  {
    hide ItemKept, IsSettled;
    if rel.Linked? {
      match rel.data
      case Many(items) =>
        forall i | 0 <= i < |items|
          ensures out.data.items[i] == items[i] <==> IsSettled(items[i])
        {
          KeptIsEqualExactly(b, items[i], out.data.items[i]);
        }
        assert out.data.items == items <==> forall i :: 0 <= i < |items| ==> out.data.items[i] == items[i];
      case One(item) => KeptIsEqualExactly(b, item, out.data.item);
      case Cleared =>
    }
  }

  /** A returned map equals the given one exactly when every reference in it is settled. */
  lemma UnchangedExactly(b: Backend, fields: seq<Field>, cache: map<Uuid, int>)
    requires Resolve(b, fields, cache).Ok?
    ensures Resolve(b, fields, cache).value.0 == fields <==> IsSettledMap(fields)
  {
    hide Resolve, RelKept, IsSettledRel;
    ResolveKeepsAll(b, fields, cache);
    var out := Resolve(b, fields, cache).value.0;
    forall i | 0 <= i < |fields|
      ensures out[i] == fields[i] <==> IsSettledRel(fields[i].rel)
    {
      RelIsEqualExactly(b, fields[i].rel, out[i].rel);
    }
    assert out == fields <==> forall i :: 0 <= i < |fields| ==> out[i] == fields[i];
  }

  /** A reference to a node with one more key loses that key. */
  lemma NodeReferenceLosesKeys(b: Backend, id: Uuid, key: Content)
    requires key != NO_EXTRA
    ensures var given := [Field("field_related", Linked(One(Ref("node--page", id, NoMeta, key)), ""))];
      && Resolve(b, given, map[])
         == Ok(([Field("field_related", Linked(One(Ref("node--page", id, NoMeta, NO_EXTRA)), ""))], []))
      && Resolve(b, given, map[]).value.0 != given
  {
    var given := [Field("field_related", Linked(One(Ref("node--page", id, NoMeta, key)), ""))];
    var s := State(map[], [], []);
    assert !IsParagraph("node--page");
    var rel := Linked(One(Ref("node--page", id, NoMeta, NO_EXTRA)), "");
    assert ResolveRel(b, given[0].rel, s) == (rel, s);
    assert given[..0] == [] && ResolveFields(b, [], s) == ([], s);
    var out: seq<Field> := [Field("field_related", rel)];
    assert ResolveFields(b, given, s).0 == out && ResolveFields(b, given, s).1 == s;
  }

  // ----- which number each paragraph gets -----

  /** The references of a map, in order. */
  function AllItems(fields: seq<Field>): seq<Item> {
    if fields == [] then [] else AllItems(fields[..|fields| - 1]) + RelItems(fields[|fields| - 1].rel)
  }

  function RelItems(rel: Relationship): seq<Item> {
    match rel
    case Linked(Many(items), _) => items
    case Linked(One(item), _) => [item]
    case _ => []
  }

  /** The reference comes with this number: as a number, or as a text that reads as one. */
  predicate HasOwn(b: Backend, item: Item, n: int) {
    && item.Ref? && item.meta.Meta?
    && (item.meta.revision == Number(n)
        || (item.meta.revision.Text? && b.number(item.meta.revision.text) == Some(n)))
  }

  predicate IsOf(item: Item, id: Uuid) { item.Ref? && "paragraph--" <= item.kind && item.id == id }

  /** The place of the last reference to the paragraph before place `k`, or -1. */
  function LatestBefore(items: seq<Item>, id: Uuid, k: nat): (j: int)
    requires k <= |items|
    ensures -1 <= j < k
  {
    if k == 0 then -1 else if IsOf(items[k - 1], id) then k - 1 else LatestBefore(items, id, k - 1)
  }

  /** One of the reads, with those before it, answered this revision. */
  ghost predicate ReadGave(b: Backend, fetched: seq<Uuid>, kind: string, id: Uuid, n: int) {
    exists m :: 0 <= m < |fetched| && fetched[m] == id && b.read(fetched[..m], kind, id) == Found(Some(n))
  }

  /**
   * The number of a paragraph is its own, or else that of the last reference to it before, or else the caller's, or
   * else what a read of this run answered. Its other metadata stays; any other reference is copied.
   */
  ghost predicate Numbered(
    b: Backend, cache: map<Uuid, int>, items: seq<Item>, outs: seq<Item>, fetched: seq<Uuid>, k: nat)
    requires k < |items| == |outs|
  {
    var item := items[k];
    && item.Ref?
    && if !("paragraph--" <= item.kind) then
         outs[k] == Ref(item.kind, item.id, if item.meta.Meta? then item.meta else NoMeta, "")
       else exists n ::
         && outs[k] == Ref(item.kind, item.id, Meta(Number(n), if item.meta.Meta? then item.meta.other else ""), "")
         && NumberComesFrom(b, cache, items, outs, fetched, k, n)
  }

  ghost predicate NumberComesFrom(
    b: Backend, cache: map<Uuid, int>, items: seq<Item>, outs: seq<Item>, fetched: seq<Uuid>, k: nat, n: int)
    requires k < |items| == |outs| && items[k].Ref?
  {
    var item, j := items[k], LatestBefore(items, items[k].id, k);
    if exists own :: HasOwn(b, item, own) then HasOwn(b, item, n)
    else if j >= 0 then HasNumber(outs[j], n)
    else if item.id in cache then n == cache[item.id]
    else ReadGave(b, fetched, item.kind, item.id, n)
  }

  predicate HasNumber(item: Item, n: int) { item.Ref? && item.meta.Meta? && item.meta.revision == Number(n) }

  /** The cache holds the number of the last reference to each paragraph, and else what the caller had put there. */
  ghost predicate CacheIs(items: seq<Item>, outs: seq<Item>, cache: map<Uuid, int>, now: map<Uuid, int>)
    requires |items| == |outs|
  {
    forall id :: LooksUp(items, outs, cache, now, id)
  }

  predicate LooksUp(items: seq<Item>, outs: seq<Item>, cache: map<Uuid, int>, now: map<Uuid, int>, id: Uuid)
    requires |items| == |outs|
  {
    var j := LatestBefore(items, id, |items|);
    if j >= 0 then id in now && HasNumber(outs[j], now[id])
    else (id in now <==> id in cache) && (id in cache ==> now[id] == cache[id])
  }

  /** Every read was of a paragraph that came without a number, that no reference before had, nor the caller. */
  ghost predicate ReadsAreNeeded(b: Backend, cache: map<Uuid, int>, items: seq<Item>, fetched: seq<Uuid>) {
    forall id <- fetched :: exists k :: NeedsRead(b, cache, items, id, k)
  }

  ghost predicate NeedsRead(b: Backend, cache: map<Uuid, int>, items: seq<Item>, id: Uuid, k: nat) {
    && k < |items| && IsOf(items[k], id) && id !in cache && LatestBefore(items, id, k) < 0
    && forall n :: !HasOwn(b, items[k], n)
  }

  lemma {:induction false} ItemsAppend(b: Backend, a: seq<Item>, c: seq<Item>, s: State)
    ensures var (front, s1) := ResolveItems(b, a, s);
      var (rest, s2) := ResolveItems(b, c, s1);
      ResolveItems(b, a + c, s) == (front + rest, s2)
  {
    hide ResolveOne;
    if c == [] {
      assert a + c == a;
      assert ResolveItems(b, a, s).0 + [] == ResolveItems(b, a, s).0;
    } else {
      var init, last := c[..|c| - 1], c[|c| - 1];
      ItemsAppend(b, a, init, s);
      assert (a + c)[..|a + c| - 1] == a + init && (a + c)[|a + c| - 1] == last;
      var (front, s1) := ResolveItems(b, a, s);
      var (mid, s2) := ResolveItems(b, init, s1);
      assert front + (mid + [ResolveOne(b, last, s2).0]) == front + mid + [ResolveOne(b, last, s2).0];
    }
  }

  lemma RelIsFlat(b: Backend, rel: Relationship, s: State)
    ensures var (out, s') := ResolveRel(b, rel, s);
      ResolveItems(b, RelItems(rel), s) == (RelItems(out), s')
  {
    hide ResolveOne;
    if rel.Linked? && rel.data.One? {
      var item := rel.data.item;
      assert [item][..0] == [] && ResolveItems(b, [], s) == ([], s);
      assert ResolveItems(b, [item], s).0 == [ResolveOne(b, item, s).0];
    }
  }

  /** Going through a map is going through its references in order. */
  lemma {:induction false} FieldsAreFlat(b: Backend, fields: seq<Field>, s: State)
    ensures var (out, s') := ResolveFields(b, fields, s);
      ResolveItems(b, AllItems(fields), s) == (AllItems(out), s')
  {
    hide ResolveRel, ResolveItems, RelItems;
    if fields == [] {
      NoItems(b, s);
    } else {
      var front, last := fields[..|fields| - 1], fields[|fields| - 1];
      FieldsAreFlat(b, front, s);
      var (done, s1) := ResolveFields(b, front, s);
      RelIsFlat(b, last.rel, s1);
      ItemsAppend(b, AllItems(front), RelItems(last.rel), s);
      var out := ResolveFields(b, fields, s).0;
      assert out[..|out| - 1] == done;
    }
  }

  lemma NoItems(b: Backend, s: State)
    ensures ResolveItems(b, [], s) == ([], s)
  {}

  /** What going through the references has established. */
  ghost predicate Progress(b: Backend, cache: map<Uuid, int>, items: seq<Item>, outs: seq<Item>, s: State) {
    && |items| == |outs|
    && (forall k :: 0 <= k < |items| ==> Numbered(b, cache, items, outs, s.fetched, k))
    && CacheIs(items, outs, cache, s.cache)
    && ReadsAreNeeded(b, cache, items, s.fetched)
  }

  lemma {:induction false} LatestInLonger(items: seq<Item>, more: seq<Item>, id: Uuid, k: nat)
    requires k <= |items|
    ensures LatestBefore(items + more, id, k) == LatestBefore(items, id, k)
  {
    if k > 0 { LatestInLonger(items, more, id, k - 1); }
  }

  lemma NumberedInLonger(
    b: Backend, cache: map<Uuid, int>, items: seq<Item>, outs: seq<Item>, fetched: seq<Uuid>, k: nat,
    item: Item, out: Item, fetched': seq<Uuid>)
    requires k < |items| == |outs| && Numbered(b, cache, items, outs, fetched, k) && fetched <= fetched'
    ensures Numbered(b, cache, items + [item], outs + [out], fetched', k)
  {
    hide HasOwn, LatestBefore;
    LatestInLonger(items, [item], items[k].id, k);
    if "paragraph--" <= items[k].kind {
      var n :|
        && outs[k] == Ref(items[k].kind, items[k].id,
             Meta(Number(n), if items[k].meta.Meta? then items[k].meta.other else ""), "")
        && NumberComesFrom(b, cache, items, outs, fetched, k, n);
      if ReadGave(b, fetched, items[k].kind, items[k].id, n) {
        ReadStillGave(b, fetched, fetched', items[k].kind, items[k].id, n);
      }
      assert NumberComesFrom(b, cache, items + [item], outs + [out], fetched', k, n);
    }
  }

  lemma ReadStillGave(b: Backend, fetched: seq<Uuid>, fetched': seq<Uuid>, kind: string, id: Uuid, n: int)
    requires ReadGave(b, fetched, kind, id, n) && fetched <= fetched'
    ensures ReadGave(b, fetched', kind, id, n)
  {
    var m :| 0 <= m < |fetched| && fetched[m] == id && b.read(fetched[..m], kind, id) == Found(Some(n));
    assert fetched'[..m] == fetched[..m];
  }

  /** The next reference. */
  lemma NextIsNumbered(
    b: Backend, cache: map<Uuid, int>, items: seq<Item>, outs: seq<Item>, s: State, item: Item)
    requires |items| == |outs| && CacheIs(items, outs, cache, s.cache)
    requires var (out, s') := ResolveOne(b, item, s); s'.unresolved == s.unresolved
    ensures var (out, s') := ResolveOne(b, item, s);
      Numbered(b, cache, items + [item], outs + [out], s'.fetched, |items|)
  {
    var (out, s') := ResolveOne(b, item, s);
    LatestInLonger(items, [item], item.id, |items|);
    assert LooksUp(items, outs, cache, s.cache, item.id);
    OwnIsGiven(b, item);
    hide HasOwn, LatestBefore, Given;
    if "paragraph--" <= item.kind {
      if s'.fetched != s.fetched {
        assert s'.fetched[..|s.fetched|] == s.fetched && s'.fetched[|s.fetched|] == item.id;
      }
      assert NumberComesFrom(b, cache, items + [item], outs + [out], s'.fetched, |items|, out.meta.revision.n);
    }
  }

  lemma OwnIsGiven(b: Backend, item: Item)
    requires item.Ref?
    ensures forall n :: HasOwn(b, item, n) <==> Given(b, item) == Some(n)
  {}

  lemma NextIsCached(
    b: Backend, cache: map<Uuid, int>, items: seq<Item>, outs: seq<Item>, s: State, item: Item)
    requires |items| == |outs| && CacheIs(items, outs, cache, s.cache)
    requires var (out, s') := ResolveOne(b, item, s); s'.unresolved == s.unresolved
    ensures var (out, s') := ResolveOne(b, item, s);
      CacheIs(items + [item], outs + [out], cache, s'.cache)
  {
    var (out, s') := ResolveOne(b, item, s);
    forall id
      ensures LooksUp(items + [item], outs + [out], cache, s'.cache, id)
    {
      assert LooksUp(items, outs, cache, s.cache, id);
      LatestInLonger(items, [item], id, |items|);
      hide Given;
    }
  }

  lemma NextIsNeeded(
    b: Backend, cache: map<Uuid, int>, items: seq<Item>, outs: seq<Item>, s: State, item: Item)
    requires |items| == |outs| && CacheIs(items, outs, cache, s.cache)
    requires ReadsAreNeeded(b, cache, items, s.fetched)
    ensures ReadsAreNeeded(b, cache, items + [item], ResolveOne(b, item, s).1.fetched)
  {
    var s' := ResolveOne(b, item, s).1;
    forall id <- s'.fetched
      ensures exists k :: NeedsRead(b, cache, items + [item], id, k)
    {
      if id in s.fetched {
        var k :| NeedsRead(b, cache, items, id, k);
        LatestInLonger(items, [item], id, k);
        assert NeedsRead(b, cache, items + [item], id, k);
      } else {
        assert LooksUp(items, outs, cache, s.cache, id);
        LatestInLonger(items, [item], id, |items|);
        OwnIsGiven(b, item);
        assert NeedsRead(b, cache, items + [item], id, |items|);
      }
    }
  }

  lemma {:induction false} ItemsProgress(b: Backend, cache: map<Uuid, int>, items: seq<Item>)
    requires ResolveItems(b, items, State(cache, [], [])).1.unresolved == []
    ensures var (outs, s) := ResolveItems(b, items, State(cache, [], []));
      Progress(b, cache, items, outs, s)
  {
    if items == [] {
    } else {
      var front, last := items[..|items| - 1], items[|items| - 1];
      var (done, s1) := ResolveItems(b, front, State(cache, [], []));
      var (out, s2) := ResolveOne(b, last, s1);
      assert items == front + [last];
      OneGrows(b, last, s1);
      hide ResolveOne, Numbered, CacheIs, ReadsAreNeeded;
      ItemsProgress(b, cache, front);
      NextIsNumbered(b, cache, front, done, s1, last);
      NextIsCached(b, cache, front, done, s1, last);
      NextIsNeeded(b, cache, front, done, s1, last);
      forall k | 0 <= k < |front|
        ensures Numbered(b, cache, items, done + [out], s2.fetched, k)
      {
        NumberedInLonger(b, cache, front, done, s1.fetched, k, last, out, s2.fetched);
      }
    }
  }

  lemma OneGrows(b: Backend, item: Item, s: State)
    ensures var s' := ResolveOne(b, item, s).1; s.unresolved <= s'.unresolved && s.fetched <= s'.fetched
  {
    hide Given, IsParagraph;
  }

  /**
   * In a returned map every paragraph has the number that is due to it, by the references before it, the caller's cache
   * and the reads; nothing is read that was known; and the caller's cache then knows all.
   */
  lemma NumbersAreDue(b: Backend, fields: seq<Field>, cache: map<Uuid, int>)
    requires Resolve(b, fields, cache).Ok?
    ensures var (out, fetched) := Resolve(b, fields, cache).value;
      var items, outs := AllItems(fields), AllItems(out);
      && |items| == |outs|
      && (forall k :: 0 <= k < |items| ==> Numbered(b, cache, items, outs, fetched, k))
      && ReadsAreNeeded(b, cache, items, fetched)
      && CacheIs(items, outs, cache, ResolveFields(b, fields, State(cache, [], [])).1.cache)
  {
    hide ResolveFields, ResolveItems, Numbered, CacheIs, ReadsAreNeeded, AllItems;
    FieldsAreFlat(b, fields, State(cache, [], []));
    ItemsProgress(b, cache, AllItems(fields));
  }

  // ----- resolving again -----

  // ----- which references fail -----

  /** No reference at all, or a paragraph without a number that neither the cache nor a read can give one. */
  ghost predicate Fails(b: Backend, s: State, item: Item) {
    || !item.Ref?
    || (&& "paragraph--" <= item.kind && (forall n :: !HasOwn(b, item, n)) && item.id !in s.cache
        && (forall n :: b.read(s.fetched, item.kind, item.id) != Found(Some(n))))
  }

  /** What one reference does to the cache, the reads and the failures. */
  lemma OneIsExact(b: Backend, item: Item, s: State)
    ensures var s' := ResolveOne(b, item, s).1;
      && s'.unresolved == s.unresolved + (if Fails(b, s, item) then [item] else [])
      && (!item.Ref? || !("paragraph--" <= item.kind) ==> s'.cache == s.cache && s'.fetched == s.fetched)
      && (item.Ref? && "paragraph--" <= item.kind ==>
            && (forall n :: HasOwn(b, item, n) ==> s'.cache == s.cache[item.id := n] && s'.fetched == s.fetched)
            && ((forall n :: !HasOwn(b, item, n)) ==>
                  && s'.fetched == s.fetched + (if item.id in s.cache then [] else [item.id])
                  && (item.id in s.cache || Fails(b, s, item) ==> s'.cache == s.cache)
                  && (item.id !in s.cache ==> forall n :: b.read(s.fetched, item.kind, item.id) == Found(Some(n)) ==>
                        s'.cache == s.cache[item.id := n])))
  {
    if item.Ref? { OwnIsGiven(b, item); }
    hide Given, HasOwn, Stamp, Clone;
  }

  /** The references that fail in their turn. */
  ghost function Failing(b: Backend, items: seq<Item>, cache: map<Uuid, int>): seq<Item> {
    if items == [] then []
    else
      var front, last := items[..|items| - 1], items[|items| - 1];
      var s := ResolveItems(b, front, State(cache, [], [])).1;
      Failing(b, front, cache) + if Fails(b, s, last) then [last] else []
  }

  lemma {:induction false} ItemsFail(b: Backend, items: seq<Item>, cache: map<Uuid, int>)
    ensures ResolveItems(b, items, State(cache, [], [])).1.unresolved == Failing(b, items, cache)
  {
    hide ResolveOne, Fails;
    if items != [] {
      var front, last := items[..|items| - 1], items[|items| - 1];
      ItemsFail(b, front, cache);
      OneIsExact(b, last, ResolveItems(b, front, State(cache, [], [])).1);
    }
  }

  /** A map is refused exactly if some of its references fail, and then with these, in their order. */
  lemma FailuresAreNamed(b: Backend, fields: seq<Field>, cache: map<Uuid, int>)
    ensures var failed := Failing(b, AllItems(fields), cache);
      if failed == [] then Resolve(b, fields, cache).Ok? else Resolve(b, fields, cache) == Err(failed)
  {
    hide ResolveFields, ResolveItems, AllItems, Failing;
    FieldsAreFlat(b, fields, State(cache, [], []));
    ItemsFail(b, AllItems(fields), cache);
  }

  lemma OneAgain(b: Backend, item: Item, out: Item, s: State)
    requires ItemKept(b, item, out)
    ensures var (again, s') := ResolveOne(b, out, s);
      again == out && s'.fetched == s.fetched && s'.unresolved == s.unresolved
  {}

  lemma {:induction false} ItemsAgain(b: Backend, items: seq<Item>, out: seq<Item>, s: State)
    requires ItemsKept(b, items, out)
    ensures var (again, s') := ResolveItems(b, out, s);
      again == out && s'.fetched == s.fetched && s'.unresolved == s.unresolved
    decreases |out|
  {
    hide ResolveOne, ItemKept;
    if out != [] {
      var n := |out| - 1;
      ItemsAgain(b, items[..n], out[..n], s);
      OneAgain(b, items[n], out[n], ResolveItems(b, out[..n], s).1);
    }
  }

  lemma RelAgain(b: Backend, rel: Relationship, out: Relationship, s: State)
    requires RelKept(b, rel, out)
    ensures var (again, s') := ResolveRel(b, out, s);
      again == out && s'.fetched == s.fetched && s'.unresolved == s.unresolved
  {
    hide ResolveOne, ResolveItems, ItemKept, ItemsKept;
    if rel.Linked? {
      match rel.data
      case Many(items) => ItemsAgain(b, items, out.data.items, s);
      case One(item) => OneAgain(b, item, out.data.item, s);
      case Cleared =>
    }
  }

  lemma {:induction false} FieldsAgain(b: Backend, fields: seq<Field>, out: seq<Field>, s: State)
    requires FieldsKept(b, fields, out)
    ensures var (again, s') := ResolveFields(b, out, s);
      again == out && s'.fetched == s.fetched && s'.unresolved == s.unresolved
    decreases |out|
  {
    hide ResolveRel, RelKept;
    if out != [] {
      var n := |out| - 1;
      FieldsAgain(b, fields[..n], out[..n], s);
      RelAgain(b, fields[n].rel, out[n].rel, ResolveFields(b, out[..n], s).1);
    }
  }

  /** A resolved map comes back equal and without a read, on any backend state and with any cache. */
  lemma ResolvingIsIdempotent(b: Backend, fields: seq<Field>, cache: map<Uuid, int>, cache': map<Uuid, int>)
    requires Resolve(b, fields, cache).Ok?
    ensures Resolve(b, Resolve(b, fields, cache).value.0, cache') == Ok((Resolve(b, fields, cache).value.0, []))
  {
    hide ResolveFields, FieldsKept;
    ResolveKeepsAll(b, fields, cache);
    FieldsAgain(b, fields, Resolve(b, fields, cache).value.0, State(cache', [], []));
  }

  // ----- when it succeeds -----

  /** A reference that needs no read, or whose read finds a revision whenever it is made. */
  ghost predicate Resolvable(b: Backend, item: Item) {
    && item.Ref?
    && (IsParagraph(item.kind) && Given(b, item).None? ==>
          forall fetched: seq<Uuid> :: Answers(b, fetched, item.kind, item.id))
  }

  predicate Answers(b: Backend, fetched: seq<Uuid>, kind: string, id: Uuid) {
    b.read(fetched, kind, id).Found? && b.read(fetched, kind, id).revision.Some?
  }

  ghost predicate RelResolvable(b: Backend, rel: Relationship) {
    rel.Linked? ==>
      match rel.data
      case Cleared => true
      case Many(items) => forall item <- items :: Resolvable(b, item)
      case One(item) => Resolvable(b, item)
  }

  lemma OneResolves(b: Backend, item: Item, s: State)
    requires Resolvable(b, item)
    ensures ResolveOne(b, item, s).1.unresolved == s.unresolved
  {
    hide Given, IsParagraph;
    assert item.Ref? && IsParagraph(item.kind) && Given(b, item).None? ==> Answers(b, s.fetched, item.kind, item.id);
  }

  lemma {:induction false} ItemsResolve(b: Backend, items: seq<Item>, s: State)
    requires forall item <- items :: Resolvable(b, item)
    ensures ResolveItems(b, items, s).1.unresolved == s.unresolved
  {
    hide ResolveOne, Resolvable;
    if items != [] {
      ItemsResolve(b, items[..|items| - 1], s);
      OneResolves(b, items[|items| - 1], ResolveItems(b, items[..|items| - 1], s).1);
    }
  }

  lemma RelResolves(b: Backend, rel: Relationship, s: State)
    requires RelResolvable(b, rel)
    ensures ResolveRel(b, rel, s).1.unresolved == s.unresolved
  {
    hide ResolveOne, ResolveItems, Resolvable;
    if rel.Linked? {
      match rel.data
      case Many(items) => ItemsResolve(b, items, s);
      case One(item) => OneResolves(b, item, s);
      case Cleared =>
    }
  }

  lemma {:induction false} FieldsResolve(b: Backend, fields: seq<Field>, s: State)
    requires forall f <- fields :: RelResolvable(b, f.rel)
    ensures ResolveFields(b, fields, s).1.unresolved == s.unresolved
  {
    hide ResolveRel, RelResolvable;
    if fields != [] {
      FieldsResolve(b, fields[..|fields| - 1], s);
      RelResolves(b, fields[|fields| - 1].rel, ResolveFields(b, fields[..|fields| - 1], s).1);
    }
  }

  /** If every reference can be resolved, the map is returned. */
  lemma ResolvableMapsResolve(b: Backend, fields: seq<Field>, cache: map<Uuid, int>)
    requires forall f <- fields :: RelResolvable(b, f.rel)
    ensures Resolve(b, fields, cache).Ok?
  {
    hide ResolveFields, RelResolvable;
    FieldsResolve(b, fields, State(cache, [], []));
  }

  // ----- the resolver as it runs -----

  class Resolver {
    const b: Backend
    var cache: map<Uuid, int>
    var fetched: seq<Uuid>
    var unresolved: seq<Item>

    ghost function Now(): State
      reads this
    {
      State(cache, fetched, unresolved)
    }

    constructor (b: Backend, cache: map<Uuid, int>)
      ensures this.b == b && Now() == State(cache, [], [])
    {
      this.b, this.cache, fetched, unresolved := b, cache, [], [];
    }

    method ResolveOneIdentifier(item: Item) returns (out: Item)
      modifies this
      ensures (out, Now()) == ResolveOne(b, item, old(Now()))
    {
      if !item.Ref? {
        unresolved := unresolved + [item];
        return item;
      }
      out := Clone(item);
      if !IsParagraph(item.kind) { return; }
      var given := Given(b, item);
      if given.Some? {
        cache := cache[item.id := given.value];
        return Stamp(item, given.value);
      }
      if item.id in cache { return Stamp(item, cache[item.id]); }
      var reply := b.read(fetched, item.kind, item.id);
      fetched := fetched + [item.id];
      if !reply.Found? || reply.revision.None? {
        unresolved := unresolved + [item];
        return;
      }
      cache := cache[item.id := reply.revision.value];
      return Stamp(item, reply.revision.value);
    }

    method ResolveList(data: seq<Item>) returns (items: seq<Item>)
      modifies this
      ensures (items, Now()) == ResolveItems(b, data, old(Now()))
    {
      hide ResolveOne;
      items := [];
      for i := 0 to |data|
        invariant (items, Now()) == ResolveItems(b, data[..i], old(Now()))
      {
        assert data[..i + 1][..i] == data[..i];
        var item := ResolveOneIdentifier(data[i]);
        items := items + [item];
      }
      assert data[..|data|] == data;
    }

    method ResolveRelationship(rel: Relationship) returns (r: Relationship)
      modifies this
      ensures (r, Now()) == ResolveRel(b, rel, old(Now()))
    {
      hide ResolveOne, ResolveItems;
      if rel.Opaque? { return rel; }
      match rel.data
      case Cleared =>
        return rel;
      case Many(data) =>
        if data == [] {
          NothingToResolve(b, Now());
          return Linked(Many([]), rel.rest);
        }
        var items := ResolveList(data);
        return Linked(Many(items), rel.rest);
      case One(data) =>
        var item := ResolveOneIdentifier(data);
        return Linked(One(item), rel.rest);
    }

    method ResolveErrRelationships(fields: seq<Field>) returns (r: Result<seq<Field>, seq<Item>>)
      requires fetched == [] && unresolved == []
      modifies this
      ensures var resolved := Resolve(b, fields, old(cache));
        if resolved.Ok? then r == Ok(resolved.value.0) && fetched == resolved.value.1 else r == Err(resolved.error)
    {
      hide ResolveRel;
      var entries: seq<Field> := [];
      for i := 0 to |fields|
        invariant (entries, Now()) == ResolveFields(b, fields[..i], old(Now()))
      {
        assert fields[..i + 1][..i] == fields[..i];
        var rel := ResolveRelationship(fields[i].rel);
        entries := entries + [Field(fields[i].name, rel)];
      }
      assert fields[..|fields|] == fields;
      if unresolved != [] { return Err(unresolved); }
      return Ok(entries);
    }
  }

  lemma NothingToResolve(b: Backend, s: State)
    ensures ResolveItems(b, [], s) == ([], s)
  {}
}
