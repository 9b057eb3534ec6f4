/** Data-flow budgets: fixed windows keyed by principal, target and kind, and per-request row and byte caps. */
module Budgets {
  import opened Common

  datatype Kind = Request | Page | ChainedAction | Rows | Bytes

  /** Amounts and times are real: every configured limit may be any positive number. */
  datatype Limits = Limits(
    results: real, bytes: real,
    requests: real, requestWindowSec: real,
    pages: real, pageWindowSec: real,
    chainedActions: real, chainedActionWindowSec: real)

  datatype Bucket = Bucket(count: real, resetAt: real)

  type Windows = map<string, Bucket>

  function KindName(kind: Kind): string {
    match kind
    case Request => "request"
    case Page => "page"
    case ChainedAction => "chained_action"
    case Rows => "rows"
    case Bytes => "bytes"
  }

  function WindowKey(principal: string, target: string, kind: Kind): string {
    principal + "::" + target + "::" + KindName(kind)
  }

  /** The limit and the window length in milliseconds. */
  function WindowSpec(limits: Limits, kind: Kind): (real, real) {
    if kind.Page? then (limits.pages, limits.pageWindowSec * 1000.0)
    else if kind.ChainedAction? then (limits.chainedActions, limits.chainedActionWindowSec * 1000.0)
    else (limits.requests, limits.requestWindowSec * 1000.0)
  }

  function Quantity(amount: real): real { if amount > 0.0 then amount else 1.0 }

  // ----- the key -----

  lemma KindNamesDiffer(k: Kind, k': Kind)
    ensures KindName(k) == KindName(k') <==> k == k'
    ensures ':' !in KindName(k)
  {
    assert |KindName(Request)| == 7 && |KindName(Page)| == 4 && |KindName(ChainedAction)| == 14;
    assert |KindName(Rows)| == 4 && |KindName(Bytes)| == 5 && KindName(Page)[0] != KindName(Rows)[0];
  }

  lemma KeyParts(u: string, kind: Kind, u': string, kind': Kind)
    ensures u + "::" + KindName(kind) == u' + "::" + KindName(kind') <==> u == u' && kind == kind'
  {
    hide KindName;
    KindNamesDiffer(kind, kind');
    KindNamesDiffer(kind', kind);
    if u + "::" + KindName(kind) == u' + "::" + KindName(kind') {
      assert (u + [':']) + [':'] + KindName(kind) == u + "::" + KindName(kind);
      assert (u' + [':']) + [':'] + KindName(kind') == u' + "::" + KindName(kind');
      SplitAtLast(u + [':'], KindName(kind), u' + [':'], KindName(kind'), ':');
      assert u == (u + [':'])[..|u|] && u' == (u' + [':'])[..|u'|];
    }
  }

  /** Distinct triples have distinct keys as long as no target name holds a colon. */
  lemma KeysAreDistinct(p: string, t: string, k: Kind, p': string, t': string, k': Kind)
    requires ':' !in t && ':' !in t'
    ensures WindowKey(p, t, k) == WindowKey(p', t', k') <==> p == p' && t == t' && k == k'
  {
    hide KindName;
    KeyParts(p + "::" + t, k, p' + "::" + t', k');
    if WindowKey(p, t, k) == WindowKey(p', t', k') {
      assert (p + [':']) + [':'] + t == p + "::" + t && (p' + [':']) + [':'] + t' == p' + "::" + t';
      SplitAtLast(p + [':'], t, p' + [':'], t', ':');
      assert p == (p + [':'])[..|p|] && p' == (p' + [':'])[..|p'|];
    }
  }

  // ----- the principal -----

  const SEPARATOR := '|'
  const MAX_PART_LENGTH := 256
  const LOCAL_OPERATOR := "local-operator"

  /** Who calls: the operator of the machine, or a token's issuer, subject and acting client. */
  datatype Identity = LocalOperator | Claimed(iss: string, sub: string, actor: string)

  /** The characters Unicode files under "other": control, format, private use and unassigned. */
  type OtherClass = char -> bool

  /** Visible ASCII characters are not under "other". */
  ghost predicate IsOtherClass(other: OtherClass) { forall c :: '!' <= c <= '~' ==> !other(c) }

  /** The part holds something besides white space, no separator and no "other" character, and is not too long. */
  predicate SafePart(part: string, other: OtherClass) {
    && (exists i :: 0 <= i < |part| && !IsSpace(part[i]))
    && SEPARATOR !in part && !AnyOther(part, other) && |part| <= MAX_PART_LENGTH
  }

  predicate AnyOther(s: string, other: OtherClass) { exists i :: 0 <= i < |s| && other(s[i]) }

  predicate Accepted(id: Identity, other: OtherClass) {
    id.Claimed? ==> SafePart(id.iss, other) && SafePart(id.sub, other) && SafePart(id.actor, other)
  }

  function KeyText(id: Identity): string {
    match id
    case LocalOperator => LOCAL_OPERATOR
    case Claimed(iss, sub, actor) => iss + [SEPARATOR] + (sub + [SEPARATOR] + actor)
  }

  /** No key means that the call is refused. */
  function PrincipalBudgetKey(id: Identity, other: OtherClass): Option<string> {
    if Accepted(id, other) then Some(KeyText(id)) else None
  }

  /** At most 256 characters, not all of them white space, no bar and no "other" character. */
  ghost predicate MayBePart(part: string, other: OtherClass) {
    && |part| <= 256 && (exists c <- part :: !IsSpace(c)) && (forall c <- part :: c != '|' && !other(c))
  }

  lemma PartsAreSafe(part: string, other: OtherClass)
    ensures SafePart(part, other) <==> MayBePart(part, other)
  {
    hide IsSpace;
    if MayBePart(part, other) {
      var c :| c in part && !IsSpace(c);
      var i :| 0 <= i < |part| && part[i] == c;
    }
    if SafePart(part, other) {
      var i :| 0 <= i < |part| && !IsSpace(part[i]);
      assert part[i] in part;
    }
  }

  /** The key of a principal: the three claims with bars between them, if each may be a part of a key. */
  lemma KeyIsWritten(iss: string, sub: string, actor: string, other: OtherClass)
    ensures PrincipalBudgetKey(LocalOperator, other) == Some("local-operator")
    ensures PrincipalBudgetKey(Claimed(iss, sub, actor), other) ==
              if MayBePart(iss, other) && MayBePart(sub, other) && MayBePart(actor, other) then
                Some(iss + "|" + (sub + "|" + actor))
              else None
  {
    PartsAreSafe(iss, other);
    PartsAreSafe(sub, other);
    PartsAreSafe(actor, other);
    hide SafePart, MayBePart;
  }

  /** The text before the first separator and the text after it. */
  function Cut(s: string): (string, Option<string>) {
    if s == "" then ("", None)
    else if s[0] == SEPARATOR then ("", Some(s[1..]))
    else
      var rest := Cut(s[1..]);
      ([s[0]] + rest.0, rest.1)
  }

  function ParsePrincipalKey(key: string, other: OtherClass): Option<Identity> {
    var issuer := Cut(key);
    if issuer.1.None? then None
    else
      var subject := Cut(issuer.1.value);
      if subject.1.None? then None
      else
        var id := Claimed(issuer.0, subject.0, subject.1.value);
        if Accepted(id, other) then Some(id) else None
  }

  lemma {:induction false} CutIsExact(s: string)
    ensures var cut := Cut(s);
      SEPARATOR !in cut.0 && s == if cut.1.None? then cut.0 else cut.0 + [SEPARATOR] + cut.1.value
  {
    if s == "" {
    } else if s[0] == SEPARATOR {
      assert s == [s[0]] + s[1..];
    } else {
      CutIsExact(s[1..]);
      assert s == [s[0]] + s[1..];
    }
  }

  lemma CutOf(u: string, v: string)
    requires SEPARATOR !in u
    ensures Cut(u + [SEPARATOR] + v) == (u, Some(v))
  {
    var cut := Cut(u + [SEPARATOR] + v);
    assert (u + [SEPARATOR] + v)[|u|] == SEPARATOR;
    CutIsExact(u + [SEPARATOR] + v);
    if cut.1.Some? {
      SplitAtFirst(u, v, cut.0, cut.1.value, SEPARATOR);
    }
  }

  /** Reading a claimed principal's key gives that principal, and nothing else is read. */
  lemma ParsingInvertsKeys(key: string, id: Identity, other: OtherClass)
    ensures ParsePrincipalKey(key, other) == Some(id)
      <==> id.Claimed? && PrincipalBudgetKey(id, other) == Some(key)
  {
    if ParsePrincipalKey(key, other) == Some(id) {
      hide SafePart;
      CutIsExact(key);
      CutIsExact(Cut(key).1.value);
    }
    if id.Claimed? && PrincipalBudgetKey(id, other) == Some(key) {
      assert SEPARATOR !in id.iss && SEPARATOR !in id.sub;
      hide SafePart;
      CutOf(id.iss, id.sub + [SEPARATOR] + id.actor);
      CutOf(id.sub, id.actor);
    }
  }

  /** Distinct principals have distinct keys. */
  lemma PrincipalsAreDistinct(id: Identity, id': Identity, other: OtherClass)
    requires Accepted(id, other) && Accepted(id', other)
    ensures KeyText(id) == KeyText(id') <==> id == id'
  {
    if KeyText(id) == KeyText(id') {
      ParsingInvertsKeys(KeyText(id), id, other);
      ParsingInvertsKeys(KeyText(id'), id', other);
      NoSeparatorInOperator(id);
      NoSeparatorInOperator(id');
    }
  }

  lemma NoSeparatorInOperator(id: Identity)
    ensures SEPARATOR in KeyText(id) <==> id.Claimed?
  {
    if id.Claimed? { assert KeyText(id)[|id.iss|] == SEPARATOR; }
  }

  // ----- who shares a window -----

  /** Two different principals have one window key, each on one of the two targets. */
  ghost predicate Shared(t: string, t': string, kind: Kind, kind': Kind, other: OtherClass) {
    exists id, id' | Accepted(id, other) && Accepted(id', other) && id != id' ::
      WindowKey(KeyText(id), t, kind) == WindowKey(KeyText(id'), t', kind')
  }

  /** What stands before the shorter target's part of the key within the longer one's, when it ends so. */
  function Overhang(t: string, t': string): Option<string> {
    if |t'| < |t| && ("::" + t)[|t| - |t'|..] == "::" + t' then Some(("::" + t)[..|t| - |t'|]) else None
  }

  /** The text can be read as the end of a principal's key. */
  predicate EndsAPrincipal(x: string, other: OtherClass) {
    || (SEPARATOR !in x && !AnyOther(x, other) && |x| < MAX_PART_LENGTH)
    || ParsePrincipalKey(LOCAL_OPERATOR + x, other).Some?
  }

  /** Two targets let different principals share a window exactly when the longer name ends as the shorter one's
      part of the key does, and what is left over can be the end of a principal's key. */
  lemma TargetsShareExactly(t: string, t': string, kind: Kind, kind': Kind, other: OtherClass)
    requires IsOtherClass(other) && |t'| <= |t|
    ensures Shared(t, t', kind, kind', other) <==>
      kind == kind' && Overhang(t, t').Some? && EndsAPrincipal(Overhang(t, t').value, other)
  {
    hide Shared, Overhang, EndsAPrincipal;
    if Shared(t, t', kind, kind', other) {
      SharersOverhang(t, t', kind, kind', other);
    }
    if kind == kind' && Overhang(t, t').Some? && EndsAPrincipal(Overhang(t, t').value, other) {
      OverhangIsShared(t, t', kind, other);
    }
  }

  /** Where two texts agree, the longer start is the shorter one with the overhang added. */
  lemma KeysOverhang(p: string, t: string, p': string, t': string)
    requires p + "::" + t == p' + "::" + t' && |t'| <= |t|
    ensures if |t'| == |t| then p == p' else Overhang(t, t').Some? && p' == p + Overhang(t, t').value
  {
    var w, n := p + "::" + t, |t| - |t'|;
    assert w == p + ("::" + t) && w == p' + ("::" + t') && |p'| == |p| + n;
    assert p == w[..|p|] && p' == w[..|p'|];
    assert ("::" + t)[n..] == w[|p'|..] == "::" + t';
    assert ("::" + t)[..n] == w[|p|..|p'|];
  }

  lemma SharersOverhang(t: string, t': string, kind: Kind, kind': Kind, other: OtherClass)
    requires |t'| <= |t| && Shared(t, t', kind, kind', other)
    ensures kind == kind' && Overhang(t, t').Some? && EndsAPrincipal(Overhang(t, t').value, other)
  {
    hide KeyText, Overhang, EndsAPrincipal, KindName, Accepted;
    var id, id' :| Accepted(id, other) && Accepted(id', other) && id != id' &&
      WindowKey(KeyText(id), t, kind) == WindowKey(KeyText(id'), t', kind');
    KeyParts(KeyText(id) + "::" + t, kind, KeyText(id') + "::" + t', kind');
    KeysOverhang(KeyText(id), t, KeyText(id'), t');
    PrincipalsAreDistinct(id, id', other);
    LongerPrincipal(id, id', Overhang(t, t').value, other);
  }

  lemma LongerPrincipal(id: Identity, id': Identity, x: string, other: OtherClass)
    requires Accepted(id, other) && Accepted(id', other) && id != id' && KeyText(id') == KeyText(id) + x
    ensures EndsAPrincipal(x, other)
  {
    NoSeparatorInOperator(id);
    NoSeparatorInOperator(id');
    if id.Claimed? {
      LongerActor(id, id', x, other);
    } else {
      ParsingInvertsKeys(KeyText(id'), id', other);
    }
  }

  lemma LongerActor(id: Identity, id': Identity, x: string, other: OtherClass)
    requires Accepted(id, other) && Accepted(id', other) && id.Claimed? && id'.Claimed?
    requires KeyText(id') == KeyText(id) + x
    ensures SEPARATOR !in x && !AnyOther(x, other) && |x| < MAX_PART_LENGTH
  {
    assert id.actor != "" && SEPARATOR !in id.iss && SEPARATOR !in id.sub;
    assert SEPARATOR !in id'.iss && SEPARATOR !in id'.sub;
    var rest, rest' := id.sub + [SEPARATOR] + (id.actor + x), id'.sub + [SEPARATOR] + id'.actor;
    assert KeyText(id) + x == id.iss + [SEPARATOR] + rest;
    SplitAtFirst(id.iss, rest, id'.iss, rest', SEPARATOR);
    SplitAtFirst(id.sub, id.actor + x, id'.sub, id'.actor, SEPARATOR);
    SuffixIsSafe(id.actor, x, other);
  }

  lemma SuffixIsSafe(u: string, x: string, other: OtherClass)
    requires SafePart(u + x, other)
    ensures SEPARATOR !in x && !AnyOther(x, other) && |u| + |x| <= MAX_PART_LENGTH
  {
    var w := u + x;
    assert forall i :: 0 <= i < |x| ==> x[i] == w[|u| + i];
  }

  lemma OverhangIsShared(t: string, t': string, kind: Kind, other: OtherClass)
    requires IsOtherClass(other) && Overhang(t, t').Some? && EndsAPrincipal(Overhang(t, t').value, other)
    ensures Shared(t, t', kind, kind, other)
  {
    var x := Overhang(t, t').value;
    var id, id' := Extended(x, other);
    hide Accepted, KeyText, KindName, EndsAPrincipal;
    OverhangMeets(KeyText(id), t, t');
    assert WindowKey(KeyText(id), t, kind) == WindowKey(KeyText(id'), t', kind);
    assert id != id' by { assert |KeyText(id')| == |KeyText(id)| + |x|; }
  }

  lemma OverhangMeets(p: string, t: string, t': string)
    requires Overhang(t, t').Some?
    ensures p + "::" + t == (p + Overhang(t, t').value) + "::" + t'
  {
    var x := Overhang(t, t').value;
    assert "::" + t == x + ("::" + t');
    assert p + "::" + t == p + ("::" + t);
    assert p + (x + ("::" + t')) == (p + x) + ("::" + t');
  }

  /** Two principals, one's key the other's with the text added. */
  lemma Extended(x: string, other: OtherClass) returns (id: Identity, id': Identity)
    requires IsOtherClass(other) && EndsAPrincipal(x, other)
    ensures Accepted(id, other) && Accepted(id', other) && KeyText(id') == KeyText(id) + x
  {
    if ParsePrincipalKey(LOCAL_OPERATOR + x, other).Some? {
      id, id' := LocalOperator, ParsePrincipalKey(LOCAL_OPERATOR + x, other).value;
      ParsingInvertsKeys(LOCAL_OPERATOR + x, id', other);
    } else {
      id, id' := Claimed("i", "s", "a"), Claimed("i", "s", "a" + x);
      OneLetterIsSafe('i', "", other);
      OneLetterIsSafe('s', "", other);
      OneLetterIsSafe('a', "", other);
      OneLetterIsSafe('a', x, other);
    }
  }

  lemma OneLetterIsSafe(c: char, x: string, other: OtherClass)
    requires IsOtherClass(other) && 'a' <= c <= 'z'
    requires SEPARATOR !in x && !AnyOther(x, other) && |x| < MAX_PART_LENGTH
    ensures SafePart([c] + x, other)
  {
    var w := [c] + x;
    assert w[0] == c && forall i :: 0 < i < |w| ==> w[i] == x[i - 1];
  }

  /** A key text cannot tell a colon pair of the principal from one of the target. */
  lemma ColonsMove(p: string, u: string, v: string, kind: Kind)
    ensures WindowKey(p + "::" + u, v, kind) == WindowKey(p, u + "::" + v, kind)
  {
    assert (p + "::" + u) + "::" + v == p + "::" + (u + "::" + v);
  }

  lemma SmallPrincipal(actor: string, other: OtherClass)
    requires SafePart(actor, other) && IsOtherClass(other)
    ensures PrincipalBudgetKey(Claimed("i", "s", actor), other) == Some("i|s|" + actor)
  {
    OneLetterIsSafe('i', "", other);
    OneLetterIsSafe('s', "", other);
    hide SafePart;
    assert KeyText(Claimed("i", "s", actor)) == "i|s|" + actor;
  }

  /** Two principals on two targets with one window. */
  lemma ColonsCollide(other: OtherClass)
    requires IsOtherClass(other)
    ensures PrincipalBudgetKey(Claimed("i", "s", "a::b"), other) == Some("i|s|a::b")
    ensures PrincipalBudgetKey(Claimed("i", "s", "a"), other) == Some("i|s|a")
    ensures WindowKey("i|s|a::b", "c", Request) == WindowKey("i|s|a", "b::c", Request)
  {
    OneLetterIsSafe('a', "", other);
    OneLetterIsSafe('a', "::b", other);
    hide SafePart, PrincipalBudgetKey, WindowKey, IsOtherClass;
    assert "a" + "" == "a" && "a" + "::b" == "a::b";
    SmallPrincipal("a", other);
    SmallPrincipal("a::b", other);
    assert "i|s|" + "a" == "i|s|a" && "i|s|" + "a::b" == "i|s|a::b";
    ColonsMove("i|s|a", "b", "c", Request);
    assert "i|s|a" + "::" + "b" == "i|s|a::b" && "b" + "::" + "c" == "b::c";
  }

  // ----- one window -----

  /** Whether the amount is granted, and the windows afterwards. A refusal can still start a window. */
  function Consume(windows: Windows, key: string, now: real, limit: real, windowMs: real, qty: real): (bool, Windows) {
    var bucket := if key in windows && now < windows[key].resetAt then windows[key] else Bucket(0.0, now + windowMs);
    if bucket.count + qty > limit then (false, windows[key := bucket])
    else (true, windows[key := bucket.(count := bucket.count + qty)])
  }

  datatype Call = Call(key: string, now: real, limit: real, windowMs: real, qty: real)

  function Apply(windows: Windows, c: Call): (bool, Windows) {
    Consume(windows, c.key, c.now, c.limit, c.windowMs, c.qty)
  }

  function After(calls: seq<Call>): Windows {
    if calls == [] then map[] else Apply(After(calls[..|calls| - 1]), calls[|calls| - 1]).1
  }

  /** The amount granted on a key at times in [from, to). */
  function Granted(calls: seq<Call>, key: string, from: real, to: real): real {
    if calls == [] then 0.0
    else
      var last, before := calls[|calls| - 1], calls[..|calls| - 1];
      var counts := last.key == key && from <= last.now < to && Apply(After(before), last).0;
      Granted(before, key, from, to) + if counts then last.qty else 0.0
  }

  function OnKey(calls: seq<Call>, key: string): seq<Call> {
    if calls == [] then []
    else
      var own := OnKey(calls[..|calls| - 1], key);
      if calls[|calls| - 1].key == key then own + [calls[|calls| - 1]] else own
  }

  /** The calls on a key are its own, in their order. */
  lemma OwnCalls(calls: seq<Call>, c: Call, key: string)
    ensures OnKey([], key) == []
    ensures OnKey(calls + [c], key) == OnKey(calls, key) + if c.key == key then [c] else []
  {
    assert (calls + [c])[..|calls|] == calls;
  }

  lemma {:induction false} SameBucket(calls: seq<Call>, key: string)
    ensures key in After(calls) <==> key in After(OnKey(calls, key))
    ensures key in After(calls) ==> After(calls)[key] == After(OnKey(calls, key))[key]
  {
    if calls != [] {
      SameBucket(calls[..|calls| - 1], key);
      var own := OnKey(calls[..|calls| - 1], key);
      assert (own + [calls[|calls| - 1]])[..|own|] == own;
    }
  }

  /** The bucket of the call's key decides. */
  lemma SameGrant(c: Call, windows: Windows, windows': Windows)
    requires c.key in windows <==> c.key in windows'
    requires c.key in windows ==> windows[c.key] == windows'[c.key]
    ensures Apply(windows, c).0 == Apply(windows', c).0
  {}

  /** What is granted on a key depends on the calls with that key alone. */
  lemma {:induction false} OtherKeysChangeNothing(calls: seq<Call>, key: string, from: real, to: real)
    ensures Granted(calls, key, from, to) == Granted(OnKey(calls, key), key, from, to)
  {
    if calls != [] {
      var before, last := calls[..|calls| - 1], calls[|calls| - 1];
      OtherKeysChangeNothing(before, key, from, to);
      SameBucket(before, key);
      hide Apply, After;
      if last.key == key {
        var own := OnKey(before, key);
        SameGrant(last, After(before), After(own));
        assert (own + [last])[..|own|] == own;
      }
    }
  }

  // ----- when a call is granted -----

  /** The place of the call that opened the key's latest window. */
  function Opener(calls: seq<Call>, key: string): (i: Option<nat>)
    ensures i.Some? ==> i.value < |calls|
  {
    if calls == [] then None
    else
      var last, earlier := calls[|calls| - 1], Opener(calls[..|calls| - 1], key);
      if last.key != key || (earlier.Some? && last.now < calls[earlier.value].now + calls[earlier.value].windowMs)
      then earlier else Some(|calls| - 1)
  }

  /** What of the limit is taken up at this time: what was granted since the window opened, if it has not ended. */
  function Taken(calls: seq<Call>, key: string, now: real): real
    decreases |calls|
  {
    var opener := Opener(calls, key);
    if opener.None? || now >= calls[opener.value].now + calls[opener.value].windowMs then 0.0
    else GrantedSince(calls, key, opener.value)
  }

  function GrantedSince(calls: seq<Call>, key: string, from: nat): real
    requires from <= |calls|
    decreases |calls|, 0
  {
    if |calls| == from then 0.0
    else
      var before, last := calls[..|calls| - 1], calls[|calls| - 1];
      var granted := last.key == key && Taken(before, key, last.now) + last.qty <= last.limit;
      GrantedSince(before, key, from) + if granted then last.qty else 0.0
  }

  lemma {:induction false} BucketIsHistory(calls: seq<Call>, key: string)
    ensures key in After(calls) <==> Opener(calls, key).Some?
    ensures key in After(calls) ==>
      var i := Opener(calls, key).value;
      After(calls)[key] == Bucket(GrantedSince(calls, key, i), calls[i].now + calls[i].windowMs)
  {
    if calls != [] {
      var before, last := calls[..|calls| - 1], calls[|calls| - 1];
      BucketIsHistory(before, key);
    }
  }

  /** A call is granted exactly if it fits the limit beside what was granted since the key's running window opened. */
  lemma GrantIsExact(calls: seq<Call>, c: Call)
    ensures Apply(After(calls), c).0 <==> Taken(calls, c.key, c.now) + c.qty <= c.limit
  {
    BucketIsHistory(calls, c.key);
    hide After;
  }

  /** Calls on a key with one limit and one window length, under a clock that does not go back. */
  ghost predicate Steady(calls: seq<Call>, key: string, limit: real, windowMs: real) {
    && limit > 0.0 && windowMs > 0.0
    && (forall c <- calls :: c.key == key && c.limit == limit && c.windowMs == windowMs && c.qty > 0.0)
    && (forall i, j :: 0 <= i < j < |calls| ==> calls[i].now <= calls[j].now)
  }

  function Times(k: nat, x: real): real { (k as real) * x }

  lemma TimesStep(k: nat, x: real)
    ensures Times(k + 1, x) == Times(k, x) + x
  {
  }

  lemma {:induction false} TimesGrows(m: nat, k: nat, x: real)
    requires m <= k && x > 0.0
    ensures Times(m, x) <= Times(k, x)
    decreases k - m
  {
    if m < k {
      TimesStep(m, x);
      TimesGrows(m + 1, k, x);
    }
  }

  /**
   * `m` counts the windows before the current one that can hold grants of the interval: none if the current
   * one began before the interval, else at least one, each a whole window length before the next.
   */
  ghost predicate Counted(b: Bucket, m: nat, g: real, limit: real, windowMs: real, from: real) {
    && 0.0 <= b.count <= limit
    && g <= Times(m, limit) + b.count
    && (if b.resetAt - windowMs < from then m == 0
        else m >= 1 && b.resetAt - windowMs >= from + Times(m - 1, windowMs))
  }

  /** While the current window is in the interval, at most k windows came before it. */
  lemma CountedIsBounded(b: Bucket, m: nat, g: real, limit: real, windowMs: real, from: real, k: nat, now: real)
    requires limit > 0.0 && windowMs > 0.0
    requires Counted(b, m, g, limit, windowMs, from)
    requires b.resetAt - windowMs <= now < from + Times(k, windowMs)
    ensures g <= Times(k + 1, limit)
  {
    hide Times;
    if m > k {
      TimesGrows(k, m - 1, windowMs);
    }
    TimesGrows(m, k, limit);
    TimesStep(k, limit);
  }

  /** A new window counts the one before it. */
  lemma NextWindow(b: Bucket, m: nat, g: real, limit: real, windowMs: real, from: real, now: real)
    requires limit > 0.0 && windowMs > 0.0
    requires Counted(b, m, g, limit, windowMs, from) && b.resetAt <= now && from <= now
    ensures Counted(Bucket(0.0, now + windowMs), m + 1, g, limit, windowMs, from)
  {
    hide Times;
    TimesStep(m, limit);
    if m >= 1 { TimesStep(m - 1, windowMs); }
    assert Times(0, windowMs) == 0.0 by { TimesZero(windowMs); }
  }

  lemma TimesZero(x: real)
    ensures Times(0, x) == 0.0
  {
  }

  lemma {:induction false} CountWindows(
      calls: seq<Call>, key: string, limit: real, windowMs: real, from: real, k: nat) returns (m: nat)
    requires Steady(calls, key, limit, windowMs)
    ensures var g := Granted(calls, key, from, from + Times(k, windowMs));
      && 0.0 <= g <= Times(k + 1, limit)
      && (calls == [] || calls[|calls| - 1].now < from ==> g == 0.0)
      && (calls != [] ==>
            && key in After(calls)
            && After(calls)[key].resetAt - windowMs <= calls[|calls| - 1].now
            && Counted(After(calls)[key], m, g, limit, windowMs, from))
  {
    hide Times, Counted, After, Granted, Apply, Consume;
    TimesZero(limit);
    TimesGrows(0, k + 1, limit);
    m := 0;
    if calls == [] {
      GrantedNothing(key, from, from + Times(k, windowMs));
    } else {
      var last, before := calls[|calls| - 1], calls[..|calls| - 1];
      var m0 := CountWindows(before, key, limit, windowMs, from, k);
      var to := from + Times(k, windowMs);
      var g0, g := Granted(before, key, from, to), Granted(calls, key, from, to);
      OneCall(calls, key, from, to);
      EmptyStart();
      var old? := if key in After(before) then Some(After(before)[key]) else None;
      var b0 := Current(old?, last.now, windowMs);
      if old?.Some? && last.now < old?.value.resetAt {
        m := m0;
      } else if last.now < from {
        FreshWindow(last.now, limit, windowMs, from, 0);
      } else if old?.None? {
        m := 1;
        FreshWindow(last.now, limit, windowMs, from, 1);
      } else {
        m := m0 + 1;
        NextWindow(old?.value, m0, g0, limit, windowMs, from, last.now);
      }
      CountedParts(b0, m, g0, limit, windowMs, from);
      GrantInWindow(b0, m, g0, limit, windowMs, from, last.qty);
      if g != g0 {
        CountedIsBounded(After(calls)[key], m, g, limit, windowMs, from, k, last.now);
      }
    }
  }

  lemma EmptyStart()
    ensures After([]) == map[]
  {
  }

  lemma GrantedNothing(key: string, from: real, to: real)
    ensures Granted([], key, from, to) == 0.0
  {
  }

  lemma CountedParts(b: Bucket, m: nat, g: real, limit: real, windowMs: real, from: real)
    requires Counted(b, m, g, limit, windowMs, from)
    ensures 0.0 <= b.count <= limit
  {
  }

  /** The bucket a call works on. */
  function Current(bucket: Option<Bucket>, now: real, windowMs: real): Bucket {
    if bucket.Some? && now < bucket.value.resetAt then bucket.value else Bucket(0.0, now + windowMs)
  }

  lemma OneCall(calls: seq<Call>, key: string, from: real, to: real)
    requires calls != [] && calls[|calls| - 1].key == key
    ensures var last, before := calls[|calls| - 1], calls[..|calls| - 1];
      var b := Current(if key in After(before) then Some(After(before)[key]) else None, last.now, last.windowMs);
      var granted := b.count + last.qty <= last.limit;
      && key in After(calls)
      && After(calls)[key] == (if granted then b.(count := b.count + last.qty) else b)
      && Granted(calls, key, from, to) == Granted(before, key, from, to)
           + if granted && from <= last.now < to then last.qty else 0.0
  {
  }

  /** A grant moves the count and the total alike, or only the count. */
  lemma GrantInWindow(b: Bucket, m: nat, g: real, limit: real, windowMs: real, from: real, qty: real)
    requires Counted(b, m, g, limit, windowMs, from) && qty > 0.0
    ensures b.count + qty <= limit ==>
              && Counted(b.(count := b.count + qty), m, g, limit, windowMs, from)
              && Counted(b.(count := b.count + qty), m, g + qty, limit, windowMs, from)
  {
    hide Times;
  }

  lemma FreshWindow(now: real, limit: real, windowMs: real, from: real, m: nat)
    requires limit > 0.0 && windowMs > 0.0
    requires m == if now < from then 0 else 1
    ensures Counted(Bucket(0.0, now + windowMs), m, 0.0, limit, windowMs, from)
  {
  }

  /**
   * The real rate bound. For one key with a fixed limit and window length, under a clock that does not go back,
   * at most k + 1 limits are granted within any k window lengths, whatever is refused in between and whatever
   * other keys do.
   */
  lemma RateBound(calls: seq<Call>, key: string, limit: real, windowMs: real, from: real, k: nat)
    requires Steady(OnKey(calls, key), key, limit, windowMs)
    ensures Granted(calls, key, from, from + Times(k, windowMs)) <= Times(k + 1, limit)
  {
    OtherKeysChangeNothing(calls, key, from, from + Times(k, windowMs));
    var _ := CountWindows(OnKey(calls, key), key, limit, windowMs, from, k);
  }

  /** A refused call opens a window, half a window later a whole limit is granted, then one at each window's start. */
  function Burst(key: string, limit: real, windowMs: real, k: nat): seq<Call> {
    if k == 0 then
      [Call(key, 0.0, limit, windowMs, limit + limit), Call(key, windowMs / 2.0, limit, windowMs, limit)]
    else Burst(key, limit, windowMs, k - 1) + [Call(key, Times(k, windowMs), limit, windowMs, limit)]
  }

  lemma {:induction false} BurstIsSteady(key: string, limit: real, windowMs: real, k: nat)
    requires limit > 0.0 && windowMs > 0.0
    ensures var calls := Burst(key, limit, windowMs, k);
      && calls != [] && Steady(calls, key, limit, windowMs)
      && calls[|calls| - 1].now == (if k == 0 then windowMs / 2.0 else Times(k, windowMs))
  {
    hide Times;
    if k > 0 {
      BurstIsSteady(key, limit, windowMs, k - 1);
      TimesZero(windowMs);
      TimesStep(0, windowMs);
      TimesGrows(1, k, windowMs);
      TimesStep(k - 1, windowMs);
    }
  }

  lemma {:induction false} BurstIsGranted(key: string, limit: real, windowMs: real, k: nat, to: real)
    requires limit > 0.0 && windowMs > 0.0
    requires to > windowMs / 2.0 && to > Times(k, windowMs)
    ensures var calls := Burst(key, limit, windowMs, k);
      && key in After(calls) && After(calls)[key] == Bucket(limit, Times(k + 1, windowMs))
      && Granted(calls, key, windowMs / 2.0, to) == Times(k + 1, limit)
  {
    hide After, Granted, Times, Apply, Consume;
    var calls := Burst(key, limit, windowMs, k);
    var from := windowMs / 2.0;
    TimesZero(limit);
    TimesZero(windowMs);
    TimesStep(k, limit);
    TimesStep(k, windowMs);
    OneCall(calls, key, from, to);
    if k == 0 {
      assert calls[..1] == [calls[0]] && calls[..1][..0] == [];
      OneCall(calls[..1], key, from, to);
      EmptyStart();
      GrantedNothing(key, from, to);
    } else {
      assert calls[..|calls| - 1] == Burst(key, limit, windowMs, k - 1);
      TimesStep(k - 1, windowMs);
      TimesStep(0, windowMs);
      TimesGrows(1, k, windowMs);
      BurstIsGranted(key, limit, windowMs, k - 1, to);
    }
  }

  /** The bound is met: it cannot be lowered. */
  lemma RateBoundIsMet(key: string, limit: real, windowMs: real, k: nat)
    requires limit > 0.0 && windowMs > 0.0 && k > 0
    ensures var calls := Burst(key, limit, windowMs, k);
      && Steady(calls, key, limit, windowMs)
      && Granted(calls, key, windowMs / 2.0, windowMs / 2.0 + Times(k, windowMs)) == Times(k + 1, limit)
  {
    TimesZero(windowMs);
    TimesStep(0, windowMs);
    TimesGrows(1, k, windowMs);
    BurstIsSteady(key, limit, windowMs, k);
    BurstIsGranted(key, limit, windowMs, k, windowMs / 2.0 + Times(k, windowMs));
  }

  // ----- one charge -----

  /** Whom a budget is charged to, and by which limits. */
  datatype Scope = Scope(principalKey: string, targetName: string, limits: Limits)

  /** What the current request has used; every later page and retry belongs to it. */
  datatype Usage = Usage(rows: real, bytes: real, counted: bool)

  const FRESH_USAGE := Usage(0.0, 0.0, false)

  datatype Verdict = Allowed | Refused | Unbound

  datatype Attempt = Attempt(kind: Kind, amount: real, retry: bool, now: real)

  /** The window call a charge makes; `RateBound` speaks of the calls that all charges make. */
  function CallOf(scope: Scope, kind: Kind, now: real, qty: real): Call {
    var (limit, windowMs) := WindowSpec(scope.limits, kind);
    Call(WindowKey(scope.principalKey, scope.targetName, kind), now, limit, windowMs, qty)
  }

  /** A charge against the windows and the current request. */
  function Charge(scope: Scope, windows: Windows, usage: Usage, a: Attempt): (Verdict, Windows, Usage) {
    var qty := Quantity(a.amount);
    if scope.principalKey == "" || scope.targetName == "" then (Unbound, windows, usage)
    else if a.retry && (a.kind.Request? || a.kind.Page?) then
      (if usage.counted then Allowed else Refused, windows, usage)
    else if a.kind.Rows? then
      if usage.rows + qty > scope.limits.results then (Refused, windows, usage)
      else (Allowed, windows, usage.(rows := usage.rows + qty))
    else if a.kind.Bytes? then
      if usage.bytes + qty > scope.limits.bytes then (Refused, windows, usage)
      else (Allowed, windows, usage.(bytes := usage.bytes + qty))
    else
      var (granted, after) := Apply(windows, CallOf(scope, a.kind, a.now, qty));
      if !granted then (Refused, after, usage)
      else (Allowed, after, if a.kind.Request? then Usage(0.0, 0.0, true) else usage.(counted := true))
  }

  /** A charge, with the windows as other requests have left them. */
  type Step = (Windows, Attempt)

  function UsageAfter(scope: Scope, steps: seq<Step>): Usage {
    if steps == [] then FRESH_USAGE
    else
      var last := steps[|steps| - 1];
      Charge(scope, last.0, UsageAfter(scope, steps[..|steps| - 1]), last.1).2
  }

  function VerdictOfLast(scope: Scope, steps: seq<Step>): Verdict
    requires steps != []
  {
    var last := steps[|steps| - 1];
    Charge(scope, last.0, UsageAfter(scope, steps[..|steps| - 1]), last.1).0
  }

  /** The amount of a kind allowed since a request was last counted. */
  function AllowedSinceRequest(scope: Scope, steps: seq<Step>, kind: Kind): real {
    if steps == [] then 0.0
    else
      var a, before := steps[|steps| - 1].1, steps[..|steps| - 1];
      var allowed := VerdictOfLast(scope, steps).Allowed?;
      if allowed && a.kind.Request? && !a.retry then 0.0
      else AllowedSinceRequest(scope, before, kind) + if allowed && a.kind == kind then Quantity(a.amount) else 0.0
  }

  /** Between two counted requests no more rows and bytes are allowed than the caps, retries and pages included. */
  lemma {:induction false} RequestCaps(scope: Scope, steps: seq<Step>)
    requires scope.limits.results > 0.0 && scope.limits.bytes > 0.0
    ensures AllowedSinceRequest(scope, steps, Rows) == UsageAfter(scope, steps).rows <= scope.limits.results
    ensures AllowedSinceRequest(scope, steps, Bytes) == UsageAfter(scope, steps).bytes <= scope.limits.bytes
  {
    hide Consume, WindowSpec, WindowKey;
    if steps != [] {
      RequestCaps(scope, steps[..|steps| - 1]);
    }
  }

  /** Each windowed kind has its own limit and window length, in seconds, and is charged under its own key. */
  lemma KindsHaveTheirLimits(scope: Scope, now: real, qty: real)
    ensures var l, key := scope.limits, scope.principalKey + "::" + scope.targetName + "::";
      && CallOf(scope, Request, now, qty) == Call(key + "request", now, l.requests, 1000.0 * l.requestWindowSec, qty)
      && CallOf(scope, Page, now, qty) == Call(key + "page", now, l.pages, 1000.0 * l.pageWindowSec, qty)
      && CallOf(scope, ChainedAction, now, qty)
         == Call(key + "chained_action", now, l.chainedActions, 1000.0 * l.chainedActionWindowSec, qty)
  {}

  predicate IsBound(scope: Scope) { scope.principalKey != "" && scope.targetName != "" }

  /** A retry of a request or page is not charged again. */
  predicate IsRepeat(a: Attempt) { a.retry && (a.kind == Request || a.kind == Page) }

  predicate IsWindowed(a: Attempt) { a.kind == Request || a.kind == Page || a.kind == ChainedAction }

  /** Without a principal or a target nothing is charged. */
  lemma UnboundIsRefused(scope: Scope, windows: Windows, usage: Usage, a: Attempt)
    requires scope.principalKey == "" || scope.targetName == ""
    ensures Charge(scope, windows, usage, a) == (Unbound, windows, usage)
  {}

  /** Rows and bytes are allowed exactly if they fit the cap beside those allowed since the request was counted. */
  lemma CapIsExact(scope: Scope, steps: seq<Step>, windows: Windows, a: Attempt)
    requires scope.limits.results > 0.0 && scope.limits.bytes > 0.0 && IsBound(scope)
    requires a.kind == Rows || a.kind == Bytes
    ensures var (verdict, after, _) := Charge(scope, windows, UsageAfter(scope, steps), a);
      var qty, cap := if a.amount > 0.0 then a.amount else 1.0,
                      if a.kind == Rows then scope.limits.results else scope.limits.bytes;
      && after == windows && (verdict == Allowed || verdict == Refused)
      && (verdict == Allowed <==> AllowedSinceRequest(scope, steps, a.kind) + qty <= cap)
  {
    RequestCaps(scope, steps);
  }

  /** A windowed charge that is not a repeat was allowed for this tool call. */
  ghost predicate WasCounted(scope: Scope, steps: seq<Step>) {
    exists k :: 0 < k <= |steps| && VerdictOfLast(scope, steps[..k]) == Allowed
      && IsWindowed(steps[k - 1].1) && !IsRepeat(steps[k - 1].1)
  }

  lemma {:induction false} CountedIsHistory(scope: Scope, steps: seq<Step>)
    requires IsBound(scope)
    ensures UsageAfter(scope, steps).counted <==> WasCounted(scope, steps)
  {
    if steps != [] {
      var n, before := |steps|, steps[..|steps| - 1];
      CountedIsHistory(scope, before);
      assert steps[..n] == steps;
      assert forall k :: 0 < k < n ==> before[..k] == steps[..k] && before[k - 1] == steps[k - 1];
      CountedStep(scope, steps);
      hide Charge, VerdictOfLast, UsageAfter;
      if WasCounted(scope, steps) {
        var k :| 0 < k <= n && VerdictOfLast(scope, steps[..k]) == Allowed
          && IsWindowed(steps[k - 1].1) && !IsRepeat(steps[k - 1].1);
        if k < n { assert WasCounted(scope, before); }
      }
      if WasCounted(scope, before) {
        var k :| 0 < k <= n - 1 && VerdictOfLast(scope, before[..k]) == Allowed
          && IsWindowed(before[k - 1].1) && !IsRepeat(before[k - 1].1);
        assert WasCounted(scope, steps);
      }
    }
  }

  lemma CountedStep(scope: Scope, steps: seq<Step>)
    requires steps != [] && IsBound(scope)
    ensures var a := steps[|steps| - 1].1;
      UsageAfter(scope, steps).counted <==>
        || UsageAfter(scope, steps[..|steps| - 1]).counted
        || (VerdictOfLast(scope, steps) == Allowed && IsWindowed(a) && !IsRepeat(a))
  {
    hide Consume, WindowSpec, WindowKey, Quantity;
  }

  /** A repeat costs nothing, and is allowed exactly if something was counted before it. */
  lemma RepeatIsExact(scope: Scope, steps: seq<Step>, windows: Windows, a: Attempt)
    requires IsBound(scope) && IsRepeat(a)
    ensures var usage := UsageAfter(scope, steps);
      Charge(scope, windows, usage, a) == (if WasCounted(scope, steps) then Allowed else Refused, windows, usage)
  {
    CountedIsHistory(scope, steps);
    hide UsageAfter, WasCounted;
  }

  /** Any other charge is allowed exactly if the window of its kind grants it, after whatever calls were made. */
  lemma WindowedIsExact(scope: Scope, calls: seq<Call>, usage: Usage, a: Attempt)
    requires IsBound(scope) && IsWindowed(a) && !IsRepeat(a)
    ensures var c := CallOf(scope, a.kind, a.now, if a.amount > 0.0 then a.amount else 1.0);
      var (verdict, after, usage') := Charge(scope, After(calls), usage, a);
      && after == After(calls + [c]) && (verdict == Allowed || verdict == Refused)
      && (verdict == Allowed <==> Taken(calls, c.key, c.now) + c.qty <= c.limit)
      && usage' == if verdict == Refused then usage
                   else if a.kind == Request then Usage(0.0, 0.0, true) else Usage(usage.rows, usage.bytes, true)
  {
    var c := CallOf(scope, a.kind, a.now, if a.amount > 0.0 then a.amount else 1.0);
    GrantIsExact(calls, c);
    assert (calls + [c])[..|calls|] == calls;
    hide CallOf, Taken, Consume;
  }

  /** One tool call's context. */
  class Context {
    const scope: Scope
    var usage: Usage

    constructor (scope: Scope)
      ensures this.scope == scope && usage == FRESH_USAGE
    {
      this.scope, usage := scope, FRESH_USAGE;
    }
  }

  /** The process-wide windows. */
  class Ledger {
    var windows: Windows

    constructor ()
      ensures windows == map[]
    {
      windows := map[];
    }

    method WindowConsume(scope: Scope, kind: Kind, qty: real, now: real) returns (granted: bool)
      modifies this
      ensures (granted, windows) == Apply(old(windows), CallOf(scope, kind, now, qty))
    {
      var (limit, windowMs) := WindowSpec(scope.limits, kind);
      var key := WindowKey(scope.principalKey, scope.targetName, kind);
      if key !in windows || now >= windows[key].resetAt {
        windows := windows[key := Bucket(0.0, now + windowMs)];
      }
      var bucket := windows[key];
      assert windows == old(windows)[key := bucket];
      if bucket.count + qty > limit { return false; }
      windows := windows[key := bucket.(count := bucket.count + qty)];
      assert windows == old(windows)[key := bucket.(count := bucket.count + qty)];
      return true;
    }

    method ConsumeBudget(ctx: Context, a: Attempt) returns (verdict: Verdict)
      modifies this, ctx
      ensures (verdict, windows, ctx.usage) == Charge(ctx.scope, old(windows), old(ctx.usage), a)
    {
      hide WindowSpec, WindowKey;
      if ctx.scope.principalKey == "" || ctx.scope.targetName == "" { return Unbound; }
      var qty := Quantity(a.amount);
      if a.retry && (a.kind.Request? || a.kind.Page?) {
        if !ctx.usage.counted { return Refused; }
        return Allowed;
      }
      if a.kind.Rows? || a.kind.Bytes? {
        var cap := if a.kind.Rows? then ctx.scope.limits.results else ctx.scope.limits.bytes;
        var used := if a.kind.Rows? then ctx.usage.rows else ctx.usage.bytes;
        if used + qty > cap { return Refused; }
        if a.kind.Rows? {
          ctx.usage := ctx.usage.(rows := used + qty);
        } else {
          ctx.usage := ctx.usage.(bytes := used + qty);
        }
        return Allowed;
      }
      var granted := WindowConsume(ctx.scope, a.kind, qty, a.now);
      if !granted { return Refused; }
      if a.kind.Request? {
        ctx.usage := Usage(0.0, 0.0, true);
      } else {
        ctx.usage := ctx.usage.(counted := true);
      }
      return Allowed;
    }
  }
}
