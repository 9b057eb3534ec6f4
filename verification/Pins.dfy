/** Paragraph pins of a host revision: the per-field comparison, and the key that stands for a pin list. */
module Pins {
  import opened Common

  /** A paragraph the host points at, and the revision it points at, if that is known. */
  datatype Pin = Pin(field: string, id: string, revision: Option<string>)

  /** `Number(text)` when it is a safe integer. The laws below hold for every such reading. */
  type ToSafeInteger = string -> Option<int>

  /** A missing revision and an empty one are the same. */
  function Normalized(pins: seq<Pin>): (ns: seq<Pin>)
    ensures |ns| == |pins|
    ensures forall i :: 0 <= i < |pins| ==> ns[i].revision != Some("") && ns[i].field == pins[i].field
                                            && ns[i].id == pins[i].id && RevisionText(ns[i]) == RevisionText(pins[i])
  {
    if pins == [] then []
    else
      var p := pins[0];
      [if p.revision == Some("") then p.(revision := None) else p] + Normalized(pins[1..])
  }

  function RevisionText(pin: Pin): string {
    if pin.revision.Some? then pin.revision.value else ""
  }

  function Fields(pins: seq<Pin>): set<string> { set p <- pins :: p.field }

  /** The pins of one field, in order. */
  function FieldPins(pins: seq<Pin>, field: string): (own: seq<Pin>)
    ensures forall p <- own :: p in pins && p.field == field
    ensures own != [] <==> field in Fields(pins)
  {
    if pins == [] then []
    else
      var last := pins[|pins| - 1];
      var own := FieldPins(pins[..|pins| - 1], field);
      assert pins == pins[..|pins| - 1] + [last];
      if last.field == field then own + [last] else own
  }

  predicate SameRevisionOrNewer(number: ToSafeInteger, submitted: Option<string>, landed: Option<string>) {
    var submittedMissing := submitted.None? || submitted.value == "";
    var landedMissing := landed.None? || landed.value == "";
    if submittedMissing || landedMissing then submittedMissing && landedMissing
    else
      match (number(submitted.value), number(landed.value))
      case (Some(s), Some(l)) => l >= s
      case _ => submitted.value == landed.value
  }

  /** Pairwise the same paragraph, at the same revision or a newer one. */
  predicate PinsMatch(number: ToSafeInteger, left: seq<Pin>, right: seq<Pin>) {
    && |left| == |right|
    && forall i :: 0 <= i < |left| ==>
         left[i].id == right[i].id && SameRevisionOrNewer(number, left[i].revision, right[i].revision)
  }

  /** In every field the second list pins what the first does, in order, no older. */
  ghost predicate Landed(number: ToSafeInteger, submitted: seq<Pin>, landed: seq<Pin>) {
    forall field :: PinsMatch(number, FieldPins(submitted, field), FieldPins(landed, field))
  }

  lemma LandedIsReflexive(number: ToSafeInteger, pins: seq<Pin>)
    ensures Landed(number, pins, pins)
  {
    forall field
      ensures PinsMatch(number, FieldPins(pins, field), FieldPins(pins, field))
    {
    }
  }

  lemma LandedIsTransitive(number: ToSafeInteger, a: seq<Pin>, b: seq<Pin>, c: seq<Pin>)
    requires Landed(number, a, b) && Landed(number, b, c)
    ensures Landed(number, a, c)
  {
    hide PinsMatch, FieldPins;
    forall field
      ensures PinsMatch(number, FieldPins(a, field), FieldPins(c, field))
    {
      assert PinsMatch(number, FieldPins(a, field), FieldPins(b, field));
      assert PinsMatch(number, FieldPins(b, field), FieldPins(c, field));
      PinsMatchIsTransitive(number, FieldPins(a, field), FieldPins(b, field), FieldPins(c, field));
    }
  }

  lemma PinsMatchIsTransitive(number: ToSafeInteger, a: seq<Pin>, b: seq<Pin>, c: seq<Pin>)
    requires PinsMatch(number, a, b) && PinsMatch(number, b, c)
    ensures PinsMatch(number, a, c)
  {}

  predicate SameIds(left: seq<Pin>, right: seq<Pin>) {
    |left| == |right| && forall i :: 0 <= i < |left| ==> left[i].id == right[i].id
  }

  /** In every field both lists pin the same paragraphs in the same order, at whatever revisions. */
  ghost predicate SameParagraphs(a: seq<Pin>, b: seq<Pin>) {
    forall field :: SameIds(FieldPins(a, field), FieldPins(b, field))
  }

  lemma SameParagraphsAt(a: seq<Pin>, b: seq<Pin>, field: string, i: nat)
    requires SameParagraphs(a, b) && i < |FieldPins(a, field)|
    ensures |FieldPins(a, field)| == |FieldPins(b, field)| && FieldPins(a, field)[i].id == FieldPins(b, field)[i].id
  {
    assert SameIds(FieldPins(a, field), FieldPins(b, field));
  }

  /** What has landed pins the same paragraphs, so it pins those of any third list exactly if the first did. */
  lemma LandedKeepsParagraphs(number: ToSafeInteger, a: seq<Pin>, b: seq<Pin>, c: seq<Pin>)
    requires Landed(number, b, c)
    ensures SameParagraphs(a, b) <==> SameParagraphs(a, c)
  {
    forall field
      ensures SameIds(FieldPins(b, field), FieldPins(c, field))
    {
      assert PinsMatch(number, FieldPins(b, field), FieldPins(c, field));
    }
    ThirdParagraphs(a, b, c);
  }

  lemma ThirdParagraphs(a: seq<Pin>, b: seq<Pin>, c: seq<Pin>)
    requires SameParagraphs(b, c)
    ensures SameParagraphs(a, b) <==> SameParagraphs(a, c)
  {
    hide FieldPins;
    forall field
      ensures SameIds(FieldPins(a, field), FieldPins(b, field)) <==> SameIds(FieldPins(a, field), FieldPins(c, field))
    {
      assert SameIds(FieldPins(b, field), FieldPins(c, field));
    }
    if SameParagraphs(a, b) {
      forall field
        ensures SameIds(FieldPins(a, field), FieldPins(c, field))
      {
        assert SameIds(FieldPins(a, field), FieldPins(b, field));
      }
    }
    if SameParagraphs(a, c) {
      forall field
        ensures SameIds(FieldPins(a, field), FieldPins(b, field))
      {
        assert SameIds(FieldPins(a, field), FieldPins(c, field));
      }
    }
  }

  /** Only the order inside each field counts, not how fields interleave. */
  lemma LandedIgnoresInterleaving(number: ToSafeInteger, a: seq<Pin>, a': seq<Pin>, b: seq<Pin>, b': seq<Pin>)
    requires forall field :: FieldPins(a, field) == FieldPins(a', field)
    requires forall field :: FieldPins(b, field) == FieldPins(b', field)
    ensures Landed(number, a, b) <==> Landed(number, a', b')
  {
    if Landed(number, a, b) {
      forall field
        ensures PinsMatch(number, FieldPins(a', field), FieldPins(b', field))
      {
        assert PinsMatch(number, FieldPins(a, field), FieldPins(b, field));
        assert FieldPins(a, field) == FieldPins(a', field) && FieldPins(b, field) == FieldPins(b', field);
      }
    }
    if Landed(number, a', b') {
      forall field
        ensures PinsMatch(number, FieldPins(a, field), FieldPins(b, field))
      {
        assert PinsMatch(number, FieldPins(a', field), FieldPins(b', field));
        assert FieldPins(a, field) == FieldPins(a', field) && FieldPins(b, field) == FieldPins(b', field);
      }
    }
  }

  method PinsByField(pins: seq<Pin>) returns (groups: map<string, seq<Pin>>)
    ensures groups.Keys == Fields(pins)
    ensures forall field <- groups :: groups[field] == FieldPins(pins, field)
  {
    groups := map[];
    for i := 0 to |pins|
      invariant groups.Keys == Fields(pins[..i])
      invariant forall field <- groups :: groups[field] == FieldPins(pins[..i], field)
    {
      var pin := pins[i];
      assert pins[..i + 1] == pins[..i] + [pin];
      assert pins[..i + 1][..i] == pins[..i];
      if pin.field !in groups {
        groups := groups[pin.field := []];
      }
      groups := groups[pin.field := groups[pin.field] + [pin]];
    }
    assert pins[..|pins|] == pins;
  }

  /** The field names are compared as sets; the program compares the two sorted name lists. */
  method SubmittedPinsLanded(number: ToSafeInteger, submitted: seq<Pin>, landed: seq<Pin>) returns (ok: bool)
    ensures ok <==> Landed(number, submitted, landed)
  {
    var left := PinsByField(submitted);
    var right := PinsByField(landed);
    if left.Keys != right.Keys {
      DifferentFieldsDoNotLand(number, submitted, landed);
      return false;
    }
    ok := forall field <- left.Keys :: PinsMatch(number, left[field], right[field]);
    if ok {
      forall field
        ensures PinsMatch(number, FieldPins(submitted, field), FieldPins(landed, field))
      {
        if field !in left.Keys {
          assert FieldPins(submitted, field) == [] && FieldPins(landed, field) == [];
        }
      }
    }
  }

  lemma DifferentFieldsDoNotLand(number: ToSafeInteger, submitted: seq<Pin>, landed: seq<Pin>)
    requires Fields(submitted) != Fields(landed)
    ensures !Landed(number, submitted, landed)
  {
    var field :| field in Fields(submitted) <==> field !in Fields(landed);
    assert !PinsMatch(number, FieldPins(submitted, field), FieldPins(landed, field));
  }

  // ----- the pins a caller submits -----

  /** One entry of a submitted relationship. */
  datatype Ref = Ref(id: string, paragraph: bool, revision: Option<string>)

  /** The `data` of a submitted relationship. */
  datatype Linkage = NoData | Undefined | Null | One(ref: Ref) | Many(refs: seq<Ref>)

  datatype Relationship = Relationship(field: string, linkage: Linkage)

  function Refs(linkage: Linkage): seq<Ref> {
    match linkage
    case One(ref) => [ref]
    case Many(refs) => refs
    case _ => []
  }

  predicate Pinned(ref: Ref) { ref.id != "" && ref.paragraph }

  function RefPins(field: string, refs: seq<Ref>): (pins: seq<Pin>)
    ensures Fields(pins) <= {field}
    ensures pins == [] <==> forall ref <- refs :: !Pinned(ref)
  {
    if refs == [] then []
    else
      var ref := refs[|refs| - 1];
      var before := RefPins(field, refs[..|refs| - 1]);
      assert refs == refs[..|refs| - 1] + [ref];
      if !Pinned(ref) then before
      else before + [Pin(field, ref.id, if ref.revision == Some("") then None else ref.revision)]
  }

  /** The caller names a field by submitting a paragraph in it, or by clearing it. */
  predicate Submits(rel: Relationship) {
    || (exists ref <- Refs(rel.linkage) :: Pinned(ref))
    || rel.linkage == Null
    || rel.linkage == Many([])
  }

  /** The named fields. */
  function SubmittedFields(rels: seq<Relationship>): (fields: set<string>)
    ensures forall rel <- rels | Submits(rel) :: rel.field in fields
    ensures forall field <- fields :: exists rel <- rels :: Submits(rel) && rel.field == field
  {
    if rels == [] then {}
    else
      var last, before := rels[|rels| - 1], rels[..|rels| - 1];
      assert rels == before + [last];
      if Submits(last) then SubmittedFields(before) + {last.field} else SubmittedFields(before)
  }

  datatype Submission = Submission(fields: set<string>, pins: seq<Pin>)

  function AllRefPins(rels: seq<Relationship>): seq<Pin> {
    if rels == [] then []
    else AllRefPins(rels[..|rels| - 1]) + RefPins(rels[|rels| - 1].field, Refs(rels[|rels| - 1].linkage))
  }

  method PinRefs(field: string, refs: seq<Ref>) returns (pins: seq<Pin>)
    ensures pins == RefPins(field, refs)
  {
    pins := [];
    for i := 0 to |refs|
      invariant pins == RefPins(field, refs[..i])
    {
      var ref := refs[i];
      assert refs[..i + 1][..i] == refs[..i];
      if ref.id == "" || !ref.paragraph { continue; }
      pins := pins + [Pin(field, ref.id, if ref.revision == Some("") then None else ref.revision)];
    }
    assert refs[..|refs|] == refs;
  }

  /** Nothing is submitted when no field is named. */
  function SubmissionOf(rels: seq<Relationship>): (submission: Option<Submission>)
    ensures submission.None? <==> forall rel <- rels :: !Submits(rel)
  {
    var fields := SubmittedFields(rels);
    if fields == {} then None else Some(Submission(fields, AllRefPins(rels)))
  }

  method SubmittedParagraphPins(rels: seq<Relationship>) returns (submission: Option<Submission>)
    ensures submission == SubmissionOf(rels)
  {
    var pins: seq<Pin>, fields: set<string> := [], {};
    for r := 0 to |rels|
      invariant pins == AllRefPins(rels[..r])
      invariant fields == SubmittedFields(rels[..r])
    {
      var rel := rels[r];
      assert rels[..r + 1][..r] == rels[..r];
      if rel.linkage.NoData? {
        assert pins + RefPins(rel.field, []) == pins;
        continue;
      }
      var own := PinRefs(rel.field, Refs(rel.linkage));
      pins := pins + own;
      if own != [] || rel.linkage.Null? || rel.linkage == Many([]) {
        fields := fields + {rel.field};
      }
    }
    assert rels[..|rels|] == rels;
    if fields == {} { return None; }
    return Some(Submission(fields, pins));
  }

  /** Of each entry with an id that is a paragraph there is a pin; an empty revision is a missing one. */
  lemma RefIsPinned(field: string, refs: seq<Ref>, ref: Ref)
    ensures RefPins(field, []) == []
    ensures RefPins(field, refs + [ref]) == RefPins(field, refs) +
              if ref.id == "" || !ref.paragraph then []
              else if ref.revision == None || ref.revision == Some("") then [Pin(field, ref.id, None)]
              else [Pin(field, ref.id, ref.revision)]
  {
    assert (refs + [ref])[..|refs|] == refs;
  }

  /** A field is named by an explicit null, by an empty list, or by a paragraph in it. */
  lemma SubmitsExactly(rel: Relationship)
    ensures Submits(rel) <==>
              || rel.linkage == Null || rel.linkage == Many([])
              || (rel.linkage.One? && rel.linkage.ref.id != "" && rel.linkage.ref.paragraph)
              || (rel.linkage.Many? && exists ref <- rel.linkage.refs :: ref.id != "" && ref.paragraph)
  {
    match rel.linkage
    case One(ref) =>
      assert Refs(rel.linkage) == [ref] && ref in Refs(rel.linkage);
      assert Pinned(ref) ==> Submits(rel);
    case Many(refs) =>
      assert Refs(rel.linkage) == refs;
      assert forall ref <- refs :: Pinned(ref) <==> ref.id != "" && ref.paragraph;
    case _ =>
  }

  /** One more relationship adds its field if it names it, and its pins after the others. */
  lemma SubmissionGrowsBy(rels: seq<Relationship>, rel: Relationship)
    ensures SubmittedFields([]) == {} && AllRefPins([]) == []
    ensures SubmittedFields(rels + [rel]) == SubmittedFields(rels) + (if Submits(rel) then {rel.field} else {})
    ensures AllRefPins(rels + [rel]) == AllRefPins(rels) + RefPins(
              rel.field,
              if rel.linkage.One? then [rel.linkage.ref] else if rel.linkage.Many? then rel.linkage.refs else [])
    ensures SubmissionOf(rels) ==
              if SubmittedFields(rels) == {} then None else Some(Submission(SubmittedFields(rels), AllRefPins(rels)))
  {
    assert (rels + [rel])[..|rels|] == rels;
  }

  /** The pins of the named fields. */
  function InFields(pins: seq<Pin>, fields: set<string>): (own: seq<Pin>)
    ensures forall field <- fields :: FieldPins(own, field) == FieldPins(pins, field)
    ensures forall field | field !in fields :: FieldPins(own, field) == []
  {
    if pins == [] then []
    else
      var last := pins[|pins| - 1];
      var own := InFields(pins[..|pins| - 1], fields);
      if last.field !in fields then own
      else own + [last]
  }

  /** What a caller that submits relationships is promised: its pins, in each field it named. */
  ghost predicate SubmissionLanded(number: ToSafeInteger, submission: Submission, forward: seq<Pin>) {
    Landed(number, submission.pins, InFields(forward, submission.fields))
  }

  /** Every submitted pin is in a named field. */
  lemma {:induction false} SubmittedPinsAreNamed(rels: seq<Relationship>)
    ensures Fields(AllRefPins(rels)) <= SubmittedFields(rels)
  {
    if rels != [] {
      SubmittedPinsAreNamed(rels[..|rels| - 1]);
      var last := rels[|rels| - 1];
      assert RefPins(last.field, Refs(last.linkage)) != [] ==> Submits(last);
    }
  }

  /** The check covers every named field, so a field that was cleared is empty afterwards. */
  lemma SubmissionFieldByField(number: ToSafeInteger, submission: Submission, forward: seq<Pin>)
    requires Fields(submission.pins) <= submission.fields
    ensures SubmissionLanded(number, submission, forward) <==>
            forall field <- submission.fields ::
              PinsMatch(number, FieldPins(submission.pins, field), FieldPins(forward, field))
    ensures SubmissionLanded(number, submission, forward) ==>
              forall field <- submission.fields | field !in Fields(submission.pins) :: field !in Fields(forward)
  {
    var own := InFields(forward, submission.fields);
    if SubmissionLanded(number, submission, forward) {
      forall field <- submission.fields
        ensures PinsMatch(number, FieldPins(submission.pins, field), FieldPins(forward, field))
      {
        assert PinsMatch(number, FieldPins(submission.pins, field), FieldPins(own, field));
      }
    }
    if forall field <- submission.fields ::
        PinsMatch(number, FieldPins(submission.pins, field), FieldPins(forward, field)) {
      forall field
        ensures PinsMatch(number, FieldPins(submission.pins, field), FieldPins(own, field))
      {
        if field in submission.fields {
          assert FieldPins(own, field) == FieldPins(forward, field);
        } else {
          assert field !in Fields(submission.pins);
        }
      }
    }
  }
}
