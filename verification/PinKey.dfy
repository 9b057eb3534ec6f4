/** The text key that stands for a pin list when two reads of a revision are compared. */
module PinKey {
  import opened Common
  import opened Pins

  const NUL := '\0'

  // ----- ordered field names -----

  predicate Before(a: string, b: string) {
    if b == [] then false
    else if a == [] then true
    else a[0] < b[0] || (a[0] == b[0] && Before(a[1..], b[1..]))
  }

  lemma {:induction false} BeforeIsTransitive(a: string, b: string, c: string)
    requires Before(a, b) && Before(b, c)
    ensures Before(a, c)
  {
    if a != [] && a[0] == b[0] == c[0] {
      BeforeIsTransitive(a[1..], b[1..], c[1..]);
    }
  }

  lemma {:induction false} BeforeIsTotal(a: string, b: string)
    ensures a == b || Before(a, b) || Before(b, a)
  {
    if a != [] && b != [] && a[0] == b[0] {
      BeforeIsTotal(a[1..], b[1..]);
      assert a == [a[0]] + a[1..] && b == [b[0]] + b[1..];
    }
  }

  lemma {:induction false} BeforeIsStrict(a: string, b: string)
    requires Before(a, b)
    ensures !Before(b, a) && a != b
  {
    if a != [] && a[0] == b[0] {
      BeforeIsStrict(a[1..], b[1..]);
    }
  }

  ghost predicate Ascending(names: seq<string>) {
    forall i, j :: 0 <= i < j < |names| ==> Before(names[i], names[j])
  }

  /** Insert a name where it belongs, unless it is there. */
  function Insert(name: string, names: seq<string>): (all: seq<string>)
    requires Ascending(names)
    ensures Ascending(all)
    ensures forall n :: n in all <==> n == name || n in names
  {
    if names == [] then [name]
    else if name == names[0] then names
    else if Before(name, names[0]) then
      assert forall i :: 0 < i < |names| ==> Before(names[0], names[i]);
      assert forall i :: 0 < i < |names| ==> Before(name, names[i]) by {
        forall i | 0 < i < |names| ensures Before(name, names[i]) {
          BeforeIsTransitive(name, names[0], names[i]);
        }
      }
      [name] + names
    else
      var rest := Insert(name, names[1..]);
      BeforeIsTotal(name, names[0]);
      assert forall n <- names[1..] :: Before(names[0], n);
      assert forall n <- rest :: Before(names[0], n);
      assert forall i :: 0 <= i < |rest| ==> Before(names[0], rest[i]);
      [names[0]] + rest
  }

  lemma {:induction false} AscendingIsUnique(a: seq<string>, b: seq<string>)
    requires Ascending(a) && Ascending(b)
    requires forall n :: n in a <==> n in b
    ensures a == b
  {
    assert |b| > 0 ==> b[0] in b;
    if a == [] {
    } else {
      assert a[0] in b && (b != [] ==> b[0] in a);
      HeadIsLeast(a, b[0]);
      HeadIsLeast(b, a[0]);
      if a[0] != b[0] { BeforeIsStrict(a[0], b[0]); }
      TailMembers(a);
      TailMembers(b);
      AscendingIsUnique(a[1..], b[1..]);
      assert a == [a[0]] + a[1..] && b == [b[0]] + b[1..];
    }
  }

  lemma HeadIsLeast(names: seq<string>, name: string)
    requires Ascending(names) && name in names
    ensures name == names[0] || Before(names[0], name)
  {
  }

  lemma TailMembers(names: seq<string>)
    requires Ascending(names) && names != []
    ensures forall n :: n in names[1..] <==> n in names && n != names[0]
  {
    forall i | 1 <= i < |names| ensures names[i] != names[0] {
      BeforeIsStrict(names[0], names[i]);
    }
    assert names == [names[0]] + names[1..];
  }

  // ----- the key -----

  /** What the key keeps of a pin: its id and the text of its revision. */
  type Entry = (string, string)

  function Entries(pins: seq<Pin>): (es: seq<Entry>)
    ensures |es| == |pins|
    ensures forall i :: 0 <= i < |pins| ==> es[i] == (pins[i].id, RevisionText(pins[i]))
  {
    if pins == [] then []
    else Entries(pins[..|pins| - 1]) + [(pins[|pins| - 1].id, RevisionText(pins[|pins| - 1]))]
  }

  /** The distinct field names in order. */
  function FieldNames(pins: seq<Pin>): (names: seq<string>)
    ensures Ascending(names)
    ensures forall n :: n in names <==> n in Fields(pins)
  {
    if pins == [] then []
    else
      assert pins == pins[..|pins| - 1] + [pins[|pins| - 1]];
      Insert(pins[|pins| - 1].field, FieldNames(pins[..|pins| - 1]))
  }

  function Row(e: Entry): string { e.0 + [NUL] + e.1 }

  function RowsText(es: seq<Entry>): string {
    if es == [] then ""
    else if |es| == 1 then Row(es[0])
    else Row(es[0]) + "\n" + RowsText(es[1..])
  }

  type Group = (string, seq<Entry>)

  function GroupText(g: Group): string { g.0 + [NUL] + RowsText(g.1) }

  function KeyText(gs: seq<Group>): string {
    if gs == [] then ""
    else if |gs| == 1 then GroupText(gs[0])
    else GroupText(gs[0]) + "\n\n" + KeyText(gs[1..])
  }

  function Grouped(pins: seq<Pin>, names: seq<string>): (gs: seq<Group>)
    ensures |gs| == |names|
    ensures forall i :: 0 <= i < |names| ==> gs[i] == (names[i], Entries(FieldPins(pins, names[i])))
  {
    if names == [] then []
    else [(names[0], Entries(FieldPins(pins, names[0])))] + Grouped(pins, names[1..])
  }

  function Key(pins: seq<Pin>): string { KeyText(Grouped(pins, FieldNames(pins))) }

  /** In every field the same paragraphs in the same order at the same revisions. */
  ghost predicate SamePins(a: seq<Pin>, b: seq<Pin>) {
    forall field :: Entries(FieldPins(a, field)) == Entries(FieldPins(b, field))
  }

  predicate Plain(text: string) { NUL !in text && '\n' !in text }

  /** Ids are not empty, and no part holds a separator. */
  ghost predicate Clean(pins: seq<Pin>) {
    forall p <- pins :: p.id != "" && Plain(p.id) && Plain(p.field) && Plain(RevisionText(p))
  }

  // ----- reading the key back -----

  ghost predicate CleanEntries(es: seq<Entry>) {
    forall e <- es :: e.0 != "" && Plain(e.0) && Plain(e.1)
  }

  ghost predicate LineTail(t: string) { t == "" || t[0] == '\n' }

  /** What may follow the rows of a group: nothing, or a blank line. */
  ghost predicate GroupTail(t: string) { t == "" || (|t| >= 2 && t[0] == '\n' && t[1] == '\n') }

  lemma TakeLine(u: string, t: string, u': string, t': string)
    requires u + t == u' + t' && '\n' !in u && '\n' !in u' && LineTail(t) && LineTail(t')
    ensures u == u' && t == t'
  {
    var v, v' := (t + "\n")[1..], (t' + "\n")[1..];
    assert t + "\n" == ['\n'] + v && t' + "\n" == ['\n'] + v';
    assert u + ['\n'] + v == u + t + "\n" && u' + ['\n'] + v' == u' + t' + "\n";
    SplitAtFirst(u, v, u', v', '\n');
    assert t == (u + t)[|u|..];
  }

  /** The text after the first row of a group. */
  ghost function AfterRow(es: seq<Entry>, t: string): string
    requires es != []
  {
    if |es| == 1 then t else "\n" + (RowsText(es[1..]) + t)
  }

  lemma RowsUnfold(es: seq<Entry>, t: string)
    requires es != []
    ensures RowsText(es) + t == es[0].0 + [NUL] + (es[0].1 + AfterRow(es, t))
  {
    assert Row(es[0]) == es[0].0 + [NUL] + es[0].1;
  }

  lemma RowsStart(es: seq<Entry>, t: string)
    requires es != [] && CleanEntries(es)
    ensures var s := RowsText(es) + t; s != "" && s[0] != '\n'
  {
    RowsUnfold(es, t);
    assert es[0] in es;
    assert (RowsText(es) + t)[0] == es[0].0[0];
  }

  lemma {:induction false} RowsAreReadable(es: seq<Entry>, t: string, es': seq<Entry>, t': string)
    requires es != [] && es' != [] && CleanEntries(es) && CleanEntries(es') && GroupTail(t) && GroupTail(t')
    requires RowsText(es) + t == RowsText(es') + t'
    ensures es == es' && t == t'
    decreases |es|
  {
    RowsUnfold(es, t);
    RowsUnfold(es', t');
    assert es[0] in es && es'[0] in es';
    var a, a' := AfterRow(es, t), AfterRow(es', t');
    SplitAtFirst(es[0].0, es[0].1 + a, es'[0].0, es'[0].1 + a', NUL);
    TakeLine(es[0].1, a, es'[0].1, a');
    assert es == [es[0]] + es[1..] && es' == [es'[0]] + es'[1..];
    if |es| > 1 { RowsStart(es[1..], t); assert a[1..] == RowsText(es[1..]) + t; }
    if |es'| > 1 { RowsStart(es'[1..], t'); assert a'[1..] == RowsText(es'[1..]) + t'; }
    if |es| > 1 && |es'| > 1 {
      RowsAreReadable(es[1..], t, es'[1..], t');
    }
  }

  ghost predicate CleanGroups(gs: seq<Group>) {
    forall g <- gs :: Plain(g.0) && g.1 != [] && CleanEntries(g.1)
  }

  ghost function AfterGroup(gs: seq<Group>): string
    requires gs != []
  {
    if |gs| == 1 then "" else "\n\n" + KeyText(gs[1..])
  }

  lemma KeyUnfold(gs: seq<Group>)
    requires gs != []
    ensures KeyText(gs) == gs[0].0 + [NUL] + (RowsText(gs[0].1) + AfterGroup(gs))
  {
    assert GroupText(gs[0]) == gs[0].0 + [NUL] + RowsText(gs[0].1);
    if |gs| == 1 { assert RowsText(gs[0].1) + "" == RowsText(gs[0].1); }
  }

  lemma {:induction false} KeyIsReadable(gs: seq<Group>, gs': seq<Group>)
    requires CleanGroups(gs) && CleanGroups(gs') && KeyText(gs) == KeyText(gs')
    ensures gs == gs'
    decreases |gs|
  {
    if gs != [] { KeyUnfold(gs); }
    if gs' != [] { KeyUnfold(gs'); }
    if gs != [] && gs' != [] {
      assert gs[0] in gs && gs'[0] in gs';
      var t, t' := AfterGroup(gs), AfterGroup(gs');
      SplitAtFirst(gs[0].0, RowsText(gs[0].1) + t, gs'[0].0, RowsText(gs'[0].1) + t', NUL);
      RowsAreReadable(gs[0].1, t, gs'[0].1, t');
      assert gs == [gs[0]] + gs[1..] && gs' == [gs'[0]] + gs'[1..];
      if |gs| > 1 && |gs'| > 1 {
        assert t[2..] == KeyText(gs[1..]) && t'[2..] == KeyText(gs'[1..]);
        KeyIsReadable(gs[1..], gs'[1..]);
      }
    }
  }

  lemma FieldEntriesAreClean(pins: seq<Pin>, field: string)
    requires Clean(pins)
    ensures CleanEntries(Entries(FieldPins(pins, field)))
  {
    var own := FieldPins(pins, field);
    var es := Entries(own);
    forall i | 0 <= i < |es| ensures es[i].0 != "" && Plain(es[i].0) && Plain(es[i].1) {
      assert own[i] in pins;
    }
  }

  lemma GroupsAreClean(pins: seq<Pin>)
    requires Clean(pins)
    ensures CleanGroups(Grouped(pins, FieldNames(pins)))
  {
    var names := FieldNames(pins);
    var gs := Grouped(pins, names);
    forall i | 0 <= i < |gs| ensures Plain(gs[i].0) && gs[i].1 != [] && CleanEntries(gs[i].1) {
      var field := names[i];
      assert field in names;
      var own := FieldPins(pins, field);
      assert own[0] in pins && own[0].field == field;
      FieldEntriesAreClean(pins, field);
    }
  }

  lemma SameNames(a: seq<Pin>, b: seq<Pin>, na: seq<string>, nb: seq<string>)
    requires Grouped(a, na) == Grouped(b, nb)
    ensures na == nb
    ensures forall i :: 0 <= i < |na| ==> Entries(FieldPins(a, na[i])) == Entries(FieldPins(b, na[i]))
  {
    var gs := Grouped(a, na);
    assert forall i :: 0 <= i < |gs| ==> gs[i].0 == na[i];
    assert forall i :: 0 <= i < |gs| ==> gs[i].0 == nb[i];
  }

  /** Equal keys mean the same pins, however the fields interleave. */
  lemma KeyIsFaithful(a: seq<Pin>, b: seq<Pin>)
    requires Clean(a) && Clean(b)
    ensures Key(a) == Key(b) <==> SamePins(a, b)
  {
    if Key(a) == Key(b) {
      GroupsAreClean(a);
      GroupsAreClean(b);
      KeyIsReadable(Grouped(a, FieldNames(a)), Grouped(b, FieldNames(b)));
      SameNames(a, b, FieldNames(a), FieldNames(b));
      forall field
        ensures Entries(FieldPins(a, field)) == Entries(FieldPins(b, field))
      {
        if field !in FieldNames(a) {
          assert FieldPins(a, field) == [] && FieldPins(b, field) == [];
        }
      }
    }
    if SamePins(a, b) { SamePinsSameKey(a, b); }
  }

  lemma SamePinsSameKey(a: seq<Pin>, b: seq<Pin>)
    requires SamePins(a, b)
    ensures Key(a) == Key(b)
  {
    forall field ensures field in Fields(a) <==> field in Fields(b) {
      assert Entries(FieldPins(a, field)) == Entries(FieldPins(b, field));
    }
    AscendingIsUnique(FieldNames(a), FieldNames(b));
    assert Grouped(a, FieldNames(a)) == Grouped(b, FieldNames(a));
  }

  lemma SamePinsLand(number: ToSafeInteger, a: seq<Pin>, b: seq<Pin>)
    requires SamePins(a, b)
    ensures Landed(number, a, b)
  {
    forall field
      ensures PinsMatch(number, FieldPins(a, field), FieldPins(b, field))
    {
      var left, right := FieldPins(a, field), FieldPins(b, field);
      assert Entries(left) == Entries(right);
      forall i | 0 <= i < |left|
        ensures left[i].id == right[i].id && SameRevisionOrNewer(number, left[i].revision, right[i].revision)
      {
        assert Entries(left)[i] == Entries(right)[i];
      }
    }
  }

  /** Pins are collected per field, and the sorted groups joined. */
  method PinKey(pins: seq<Pin>) returns (key: string)
    ensures key == Key(pins)
  {
    hide Entries, FieldPins, KeyText;
    var groups := PinsByField(pins);
    var names := FieldNames(pins);
    var gs: seq<Group> := [];
    for i := 0 to |names|
      invariant |gs| == i
      invariant forall j :: 0 <= j < i ==> gs[j] == (names[j], Entries(FieldPins(pins, names[j])))
    {
      assert names[i] in names;
      gs := gs + [(names[i], Entries(groups[names[i]]))];
    }
    assert gs == Grouped(pins, names);
    key := KeyText(gs);
  }
}
