/** Datatypes and sequence helpers shared by the other modules. */
module Common {

  datatype Option<+T> = None | Some(value: T)

  datatype Result<+T, +E> = Ok(value: T) | Err(error: E)

  /** The concatenation of a list of lists. */
  function Flatten<T>(parts: seq<seq<T>>): seq<T> {
    if parts == [] then [] else parts[0] + Flatten(parts[1..])
  }

  /** A prefix free of `sep` is determined by the first `sep` after it. */
  lemma {:induction false} SplitAtFirst<T>(u: seq<T>, v: seq<T>, u': seq<T>, v': seq<T>, sep: T)
    requires u + [sep] + v == u' + [sep] + v'
    requires sep !in u && sep !in u'
    ensures u == u' && v == v'
  {
    var s := u + [sep] + v;
    assert s[|u|] == sep && s[|u'|] == sep;
    assert forall i :: 0 <= i < |u| ==> s[i] == u[i];
    assert forall i :: 0 <= i < |u'| ==> s[i] == u'[i];
    assert |u| == |u'|;
    assert u == s[..|u|] && v == s[|u| + 1..];
    assert u' == s[..|u|] && v' == s[|u| + 1..];
  }

  /** A suffix free of `sep` is determined by the last `sep` before it. */
  lemma SplitAtLast<T>(u: seq<T>, v: seq<T>, u': seq<T>, v': seq<T>, sep: T)
    requires u + [sep] + v == u' + [sep] + v'
    requires sep !in v && sep !in v'
    ensures u == u' && v == v'
  {
    var s := u + [sep] + v;
    assert s[|u|] == sep && s[|u'|] == sep;
    assert forall i :: |u| < i < |s| ==> s[i] == v[i - |u| - 1];
    assert forall i :: |u'| < i < |s| ==> s[i] == v'[i - |u'| - 1];
    assert |u| == |u'|;
    assert u == s[..|u|] && v == s[|u| + 1..];
    assert u' == s[..|u|] && v' == s[|u| + 1..];
  }

  predicate IsDigit(c: char) { '0' <= c <= '9' }

  function Decimal(digits: string): nat
    requires forall i :: 0 <= i < |digits| ==> IsDigit(digits[i])
  {
    if digits == [] then 0
    else
      assert IsDigit(digits[|digits| - 1]);
      Decimal(digits[..|digits| - 1]) * 10 + (digits[|digits| - 1] as int - '0' as int)
  }

  function Digits(n: nat): (s: string)
    ensures s != "" && AllDigits(s)
  {
    if n < 10 then [(n + '0' as int) as char] else Digits(n / 10) + [(n % 10 + '0' as int) as char]
  }

  predicate AllDigits(s: string) { forall i :: 0 <= i < |s| ==> IsDigit(s[i]) }

  lemma {:induction false} DigitsAreRead(n: nat)
    ensures Decimal(Digits(n)) == n
  {
    if n >= 10 {
      DigitsAreRead(n / 10);
      assert Digits(n)[..|Digits(n)| - 1] == Digits(n / 10);
    }
  }

  /** White space and line ends, as a text is trimmed of them. */
  predicate IsSpace(c: char) {
    || c == ' ' || '\t' <= c <= '\r' || c == '\U{A0}' || c == '\U{FEFF}' || c == '\U{1680}'
    || '\U{2000}' <= c <= '\U{200A}' || c == '\U{2028}' || c == '\U{2029}' || c == '\U{202F}' || c == '\U{205F}'
    || c == '\U{3000}'
  }

  function TrimEnd(s: string): (t: string)
    ensures t <= s && (t == "" || !IsSpace(t[|t| - 1]))
  {
    if s == "" || !IsSpace(s[|s| - 1]) then s else TrimEnd(s[..|s| - 1])
  }

  function TrimStart(s: string): (t: string)
    ensures |t| <= |s| && (t == "" || !IsSpace(t[0]))
  {
    if s == "" || !IsSpace(s[0]) then s else TrimStart(s[1..])
  }

  function Trim(s: string): (t: string)
    ensures t == "" || (!IsSpace(t[0]) && !IsSpace(t[|t| - 1]))
  {
    TrimEnd(TrimStart(s))
  }

  /** The code points that count as white space or a line end. */
  lemma SpacesAreExact(c: char)
    ensures IsSpace(c) <==> c as int in {
              9, 10, 11, 12, 13, 32, 160, 5760, 8192, 8193, 8194, 8195, 8196, 8197, 8198, 8199, 8200, 8201, 8202,
              8232, 8233, 8239, 8287, 12288, 65279}
  {}

  predicate AllSpaces(s: string) { forall i :: 0 <= i < |s| ==> IsSpace(s[i]) }

  lemma {:induction false} TrimEndDropsSpaces(s: string)
    ensures |TrimEnd(s)| <= |s| && AllSpaces(s[|TrimEnd(s)|..])
  {
    hide IsSpace;
    if s != "" && IsSpace(s[|s| - 1]) { TrimEndDropsSpaces(s[..|s| - 1]); }
  }

  lemma {:induction false} TrimStartDropsSpaces(s: string)
    ensures |TrimStart(s)| <= |s|
    ensures TrimStart(s) == s[|s| - |TrimStart(s)|..] && AllSpaces(s[..|s| - |TrimStart(s)|])
  {
    hide IsSpace;
    if s != "" && IsSpace(s[0]) { TrimStartDropsSpaces(s[1..]); }
  }

  /** Trimming takes away white space at both ends, all of it and nothing else. */
  lemma TrimIsExact(s: string)
    ensures exists u, v :: s == u + Trim(s) + v && AllSpaces(u) && AllSpaces(v)
    ensures Trim(s) == "" || (!IsSpace(Trim(s)[0]) && !IsSpace(Trim(s)[|Trim(s)| - 1]))
  {
    hide IsSpace, AllSpaces, TrimStart, TrimEnd;
    var rest := TrimStart(s);
    TrimStartDropsSpaces(s);
    TrimEndDropsSpaces(rest);
    var u, v := s[..|s| - |rest|], rest[|Trim(s)|..];
    assert s == u + rest && rest == Trim(s) + v;
    assert s == u + Trim(s) + v;
  }
}
