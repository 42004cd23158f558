/** Python string operations used by the modelled code: substring membership
    (`a in b`), `str.split`, `str.join`, decimal formatting of an index and the
    code-point order that `sorted` uses on strings. */
module Strings {
  import opened Common

  predicate IsPrefix(p: string, s: string)
  {
    |p| <= |s| && s[..|p|] == p
  }

  /** Python's `sub in s` on strings: some position of `s` starts with `sub`. */
  predicate Contains(s: string, sub: string)
    decreases |s|
  {
    IsPrefix(sub, s) || (s != [] && Contains(s[1..], sub))
  }

  lemma {:induction false} ContainsAt(s: string, sub: string, i: nat)
    requires i + |sub| <= |s| && s[i..i + |sub|] == sub
    ensures Contains(s, sub)
    decreases i
  {
    if i > 0 {
      assert s[1..][i - 1..i - 1 + |sub|] == sub;
      ContainsAt(s[1..], sub, i - 1);
    }
  }

  /** Index of the leftmost occurrence of a non-empty `sep` in `s`. */
  function FindFirst(s: string, sep: string): (r: Option<nat>)
    requires sep != []
    ensures r.Some? ==> r.value + |sep| <= |s| && s[r.value..r.value + |sep|] == sep
    decreases |s|
  {
    if |s| < |sep| then None
    else if s[..|sep|] == sep then Some(0)
    else match FindFirst(s[1..], sep)
      case None => None
      case Some(j) =>
        assert s[j + 1..j + 1 + |sep|] == s[1..][j..j + |sep|];
        Some(j + 1)
  }

  /** Python's `s.split(sep)` for a non-empty separator: left to right, non-overlapping. */
  function Split(s: string, sep: string): (parts: seq<string>)
    requires sep != []
    ensures |parts| >= 1
    decreases |s|
  {
    match FindFirst(s, sep)
    case None => [s]
    case Some(i) => [s[..i]] + Split(s[i + |sep|..], sep)
  }

  /** Python's `sep.join(parts)`. */
  function Join(parts: seq<string>, sep: string): string
  {
    if parts == [] then ""
    else if |parts| == 1 then parts[0]
    else parts[0] + sep + Join(parts[1..], sep)
  }

  /** Joining the pieces of a split gives back the original string. */
  lemma {:induction false} JoinSplit(s: string, sep: string)
    requires sep != []
    ensures Join(Split(s, sep), sep) == s
    decreases |s|
  {
    match FindFirst(s, sep)
    case None =>
    case Some(i) =>
      var rest := s[i + |sep|..];
      var tail := Split(rest, sep);
      JoinSplit(rest, sep);
      JoinCons(s[..i], tail, sep);
      SplitAround(s, i, |sep|);
  }

  /** Joining a head in front of a non-empty list puts one separator between them. */
  lemma JoinCons(head: string, tail: seq<string>, sep: string)
    requires |tail| >= 1
    ensures Join([head] + tail, sep) == head + sep + Join(tail, sep)
  {
    assert ([head] + tail)[1..] == tail;
  }

  /** A string is its prefix, the n characters at i, and the rest. */
  lemma SplitAround(s: string, i: nat, n: nat)
    requires i + n <= |s|
    ensures s == s[..i] + s[i..i + n] + s[i + n..]
  {
  }

  /** Appending one part adds one separator, unless the list was empty. */
  lemma {:induction false} JoinAppend(parts: seq<string>, x: string, sep: string)
    ensures Join(parts + [x], sep) == if parts == [] then x else Join(parts, sep) + sep + x
    decreases |parts|
  {
    if |parts| > 1 {
      assert (parts + [x])[1..] == parts[1..] + [x];
      JoinAppend(parts[1..], x, sep);
    }
  }

  /** A string without the separator's first character holds no separator. */
  lemma {:induction false} FindFirstNone(s: string, sep: string)
    requires sep != []
    requires forall j :: 0 <= j < |s| ==> s[j] != sep[0]
    ensures FindFirst(s, sep) == None
    decreases |s|
  {
    if |s| >= |sep| {
      assert s[..|sep|][0] == s[0];
      FindFirstNone(s[1..], sep);
    }
  }

  /** The separator at i is found first when no earlier character starts it. */
  lemma {:induction false} FindFirstAt(s: string, sep: string, i: nat)
    requires sep != [] && i + |sep| <= |s| && s[i..i + |sep|] == sep
    requires forall j :: 0 <= j < i ==> s[j] != sep[0]
    ensures FindFirst(s, sep) == Some(i)
    decreases i
  {
    if i > 0 {
      assert s[..|sep|][0] == s[0];
      assert s[1..][i - 1..i - 1 + |sep|] == sep;
      FindFirstAt(s[1..], sep, i - 1);
    }
  }

  /** Splitting a join gives back the parts, when no part holds the separator's first
      character. */
  lemma {:induction false} SplitJoin(parts: seq<string>, sep: string)
    requires sep != [] && |parts| >= 1
    requires forall k, j :: 0 <= k < |parts| && 0 <= j < |parts[k]| ==> parts[k][j] != sep[0]
    ensures Split(Join(parts, sep), sep) == parts
    decreases |parts|
  {
    if |parts| == 1 {
      FindFirstNone(parts[0], sep);
    } else {
      var rest := Join(parts[1..], sep);
      SplitJoin(parts[1..], sep);
      SplitAtFirst(parts[0], sep, rest);
      assert parts == [parts[0]] + parts[1..];
    }
  }

  /** Splitting `head + sep + rest`, where head lacks the separator's first character,
      cuts at the end of head. */
  lemma SplitAtFirst(head: string, sep: string, rest: string)
    requires sep != []
    requires forall j :: 0 <= j < |head| ==> head[j] != sep[0]
    ensures Split(head + sep + rest, sep) == [head] + Split(rest, sep)
  {
    var s := head + sep + rest;
    var i := |head|;
    assert s[i..i + |sep|] == sep;
    assert forall j :: 0 <= j < i ==> s[j] == head[j];
    FindFirstAt(s, sep, i);
    assert s[..i] == head;
    assert s[i + |sep|..] == rest;
  }

  function DigitChar(d: nat): char
    requires d < 10
  {
    "0123456789"[d]
  }

  function DigitValue(c: char): nat
  {
    if '0' <= c <= '9' then (c as int - '0' as int) as nat else 0
  }

  /** `'{}'.format(n)` for a natural number n. */
  function NatToString(n: nat): (s: string)
    ensures |s| >= 1
  {
    if n < 10 then [DigitChar(n)] else NatToString(n / 10) + [DigitChar(n % 10)]
  }

  /** Python's `int(s)` on a string of decimal digits. */
  function ParseNat(s: string): nat
  {
    if s == [] then 0 else ParseNat(s[..|s| - 1]) * 10 + DigitValue(s[|s| - 1])
  }

  lemma {:induction false} ParseNatToString(n: nat)
    ensures ParseNat(NatToString(n)) == n
  {
    if n >= 10 {
      ParseNatToString(n / 10);
      var s := NatToString(n);
      assert s[..|s| - 1] == NatToString(n / 10);
      assert DigitValue(s[|s| - 1]) == n % 10;
    } else {
      assert DigitValue(DigitChar(n)) == n;
    }
  }

  /** Distinct numbers format to distinct strings. */
  lemma NatToStringInjective(a: nat, b: nat)
    requires NatToString(a) == NatToString(b)
    ensures a == b
  {
    ParseNatToString(a);
    ParseNatToString(b);
  }

  /** Python's `a < b` on strings: code-point lexicographic order. */
  predicate LexLess(a: string, b: string)
  {
    if a == [] then b != []
    else if b == [] then false
    else if a[0] != b[0] then a[0] < b[0]
    else LexLess(a[1..], b[1..])
  }

  lemma {:induction false} LexLessIrreflexive(a: string)
    ensures !LexLess(a, a)
  {
    if a != [] { LexLessIrreflexive(a[1..]); }
  }

  lemma {:induction false} LexLessTransitive(a: string, b: string, c: string)
    requires LexLess(a, b) && LexLess(b, c)
    ensures LexLess(a, c)
  {
    if a != [] && b != [] && c != [] && a[0] == b[0] && b[0] == c[0] {
      LexLessTransitive(a[1..], b[1..], c[1..]);
    }
  }

  lemma {:induction false} LexLessTotal(a: string, b: string)
    requires a != b
    ensures LexLess(a, b) || LexLess(b, a)
  {
    if a != [] && b != [] && a[0] == b[0] {
      assert a == [a[0]] + a[1..] && b == [b[0]] + b[1..];
      LexLessTotal(a[1..], b[1..]);
    }
  }

  predicate StrictlySorted(xs: seq<string>)
  {
    forall i, j :: 0 <= i < j < |xs| ==> LexLess(xs[i], xs[j])
  }

  /** Adds `x` to a strictly sorted list of distinct strings, unless present. */
  function InsertSorted(xs: seq<string>, x: string): (r: seq<string>)
    requires StrictlySorted(xs)
    ensures StrictlySorted(r)
    ensures forall y :: y in r <==> y in xs || y == x
  {
    if xs == [] then [x]
    else if x == xs[0] then xs
    else if LexLess(x, xs[0]) then
      forall j | 0 <= j < |xs| ensures LexLess(x, xs[j]) {
        if j > 0 { LexLessTransitive(x, xs[0], xs[j]); }
      }
      [x] + xs
    else
      LexLessTotal(x, xs[0]);
      var tail := InsertSorted(xs[1..], x);
      var r := [xs[0]] + tail;
      forall i, j | 0 <= i < j < |r| ensures LexLess(r[i], r[j]) {
        if i == 0 {
          assert r[j] in tail;
          assert r[j] in xs[1..] || r[j] == x;
        }
      }
      assert xs == [xs[0]] + xs[1..];
      r
  }

  /** A string that lacks the first character of a non-empty `sub` does not contain it. */
  lemma {:induction false} MissingFirstChar(s: string, sub: string)
    requires sub != [] && sub[0] !in s
    ensures !Contains(s, sub)
    decreases |s|
  {
    if s != [] {
      assert s == [s[0]] + s[1..];
      MissingFirstChar(s[1..], sub);
    }
  }

  /** A string in which `sub` starts at no position does not contain it. */
  lemma {:induction false} StartsNowhere(s: string, sub: string)
    requires forall i :: 0 <= i <= |s| ==> !IsPrefix(sub, s[i..])
    ensures !Contains(s, sub)
    decreases |s|
  {
    assert s[0..] == s;
    if s != [] {
      forall i | 0 <= i <= |s[1..]| ensures !IsPrefix(sub, s[1..][i..]) {
        assert s[1..][i..] == s[i + 1..];
      }
      StartsNowhere(s[1..], sub);
    }
  }
}
