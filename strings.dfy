/**
 * The string operations the expression parser relies on, on strings seen as
 * sequences of characters: `starts_with`, `find`, `rfind`, `split` on a single
 * character and `trim`.
 */
module Strings {
  import opened Wrappers

  /** `s.starts_with(prefix)` */
  predicate StartsWith(s: string, prefix: string) {
    |prefix| <= |s| && s[..|prefix|] == prefix
  }

  /** A string starts with `prefix` exactly when it is at least as long and agrees with it position by position. */
  lemma StartsWithAt(s: string, prefix: string)
    ensures StartsWith(s, prefix) <==> |prefix| <= |s| && forall i :: 0 <= i < |prefix| ==> s[i] == prefix[i]
  {
    if |prefix| <= |s| && forall i :: 0 <= i < |prefix| ==> s[i] == prefix[i] {
      assert s[..|prefix|] == prefix;
    }
  }

  /** A string starts with `prefix` exactly when it is `prefix` followed by the rest of it. */
  lemma StartsWithConcat(s: string, prefix: string)
    ensures StartsWith(s, prefix) <==> |prefix| <= |s| && s == prefix + s[|prefix|..]
  {
    if |prefix| <= |s| {
      assert s == s[..|prefix|] + s[|prefix|..];
    }
  }

  /** A string that differs from `prefix` at some position shared by both does not start with it. */
  lemma NotStartsWith(s: string, prefix: string, i: nat)
    requires i < |s| && i < |prefix| && s[i] != prefix[i]
    ensures !StartsWith(s, prefix)
  {
  }

  /** `s.find(c)`: the index of the first occurrence of `c`, if any. */
  function IndexOf(s: string, c: char): (r: Option<nat>)
    ensures r.None? <==> c !in s
    ensures r.Some? ==> r.value < |s| && s[r.value] == c && c !in s[..r.value]
  {
    assert s[0..] == s;
    FirstFrom(s, c, 0)
  }

  /** The index of the first occurrence of `c` at or after `i`, if any. */
  function FirstFrom(s: string, c: char, i: nat): (r: Option<nat>)
    requires i <= |s|
    ensures r.None? <==> c !in s[i..]
    ensures r.Some? ==> i <= r.value < |s| && s[r.value] == c && c !in s[i..r.value]
    decreases |s| - i
  {
    if i == |s| then None
    else if s[i] == c then Some(i)
    else
      var r := FirstFrom(s, c, i + 1);
      assert s[i..] == [s[i]] + s[i + 1..];
      assert r.Some? ==> s[i..r.value] == [s[i]] + s[i + 1..r.value];
      r
  }

  /** `s.rfind(c)`: the index of the last occurrence of `c`, if any. */
  function LastIndexOf(s: string, c: char): (r: Option<nat>)
    ensures r.None? <==> c !in s
    ensures r.Some? ==> r.value < |s| && s[r.value] == c && c !in s[r.value + 1..]
  {
    assert s[..|s|] == s;
    LastBefore(s, c, |s|)
  }

  /** The index of the last occurrence of `c` before `n`, if any. */
  function LastBefore(s: string, c: char, n: nat): (r: Option<nat>)
    requires n <= |s|
    ensures r.None? <==> c !in s[..n]
    ensures r.Some? ==> r.value < n && s[r.value] == c && c !in s[r.value + 1..n]
  {
    if n == 0 then None
    else if s[n - 1] == c then Some(n - 1)
    else
      var r := LastBefore(s, c, n - 1);
      assert s[..n] == s[..n - 1] + [s[n - 1]];
      assert r.Some? ==> s[r.value + 1..n] == s[r.value + 1..n - 1] + [s[n - 1]];
      r
  }

  /** The number of occurrences of `c` in `s`. */
  function Count(s: string, c: char): nat {
    if s == [] then 0 else (if s[0] == c then 1 else 0) + Count(s[1..], c)
  }

  /** The pieces joined back together, with `sep` between each two of them. */
  function Join(parts: seq<string>, sep: char): string {
    if |parts| == 0 then []
    else if |parts| == 1 then parts[0]
    else parts[0] + [sep] + Join(parts[1..], sep)
  }

  /**
   * `s.split(sep)`: the text between consecutive occurrences of `sep`, cut at
   * every one of them. There is always at least one piece (`"".split(',')`
   * yields `[""]`), and no piece contains the separator.
   */
  function Split(s: string, sep: char): (r: seq<string>)
    ensures |r| >= 1
    ensures forall i :: 0 <= i < |r| ==> sep !in r[i] && |r[i]| <= |s|
    decreases |s|
  {
    match IndexOf(s, sep)
    case None => [s]
    case Some(k) => [s[..k]] + Split(s[k + 1..], sep)
  }

  /** Splitting and joining are inverse: no piece or separator is lost. */
  lemma {:induction false} JoinOfSplit(s: string, sep: char)
    ensures Join(Split(s, sep), sep) == s
    decreases |s|
  {
    match IndexOf(s, sep)
    case None =>
    case Some(k) =>
      var rest := Split(s[k + 1..], sep);
      JoinOfSplit(s[k + 1..], sep);
      assert Split(s, sep) == [s[..k]] + rest;
      JoinCons(s[..k], rest, sep);
      assert s == s[..k] + [sep] + s[k + 1..];
  }

  /** Joining a piece in front of a non-empty list puts one separator between them. */
  lemma JoinCons(x: string, rest: seq<string>, sep: char)
    requires |rest| >= 1
    ensures Join([x] + rest, sep) == x + [sep] + Join(rest, sep)
  {
    assert ([x] + rest)[1..] == rest;
  }

  lemma {:induction false} CountConcat(a: string, b: string, c: char)
    ensures Count(a + b, c) == Count(a, c) + Count(b, c)
  {
    if a == [] {
      assert a + b == b;
    } else {
      assert (a + b)[1..] == a[1..] + b;
      CountConcat(a[1..], b, c);
    }
  }

  lemma {:induction false} CountAbsent(s: string, c: char)
    requires c !in s
    ensures Count(s, c) == 0
  {
    if s != [] {
      CountAbsent(s[1..], c);
    }
  }

  /** Splitting on `sep` yields one more piece than there are separators. */
  lemma {:induction false} SplitCount(s: string, sep: char)
    ensures |Split(s, sep)| == Count(s, sep) + 1
    decreases |s|
  {
    match IndexOf(s, sep)
    case None =>
      CountAbsent(s, sep);
    case Some(k) =>
      SplitCount(s[k + 1..], sep);
      assert s == s[..k] + ([sep] + s[k + 1..]);
      CountConcat(s[..k], [sep] + s[k + 1..], sep);
      CountConcat([sep], s[k + 1..], sep);
      CountAbsent(s[..k], sep);
  }

  /** Splitting a join of separator-free pieces gives back those pieces. */
  lemma {:induction false} SplitOfJoin(parts: seq<string>, sep: char)
    requires |parts| >= 1
    requires forall i :: 0 <= i < |parts| ==> sep !in parts[i]
    ensures Split(Join(parts, sep), sep) == parts
  {
    if |parts| == 1 {
      assert IndexOf(parts[0], sep).None?;
    } else {
      var s := Join(parts, sep);
      var k := |parts[0]|;
      assert s[k] == sep;
      assert s[..k] == parts[0];
      match IndexOf(s, sep)
      case None =>
        assert false;
      case Some(j) =>
        assert j == k;
        assert s[k + 1..] == Join(parts[1..], sep);
        SplitOfJoin(parts[1..], sep);
    }
  }

  /** The characters Rust's `trim` removes, restricted to ASCII. */
  predicate IsWhitespace(c: char) {
    c == ' ' || c == '\t' || c == '\n' || c == '\U{B}' || c == '\U{C}' || c == '\r'
  }

  /** The index of the first non-whitespace character at or after `i`, or `|s|`. */
  function SkipLeading(s: string, i: nat): (r: nat)
    requires i <= |s|
    ensures i <= r <= |s| && (r == |s| || !IsWhitespace(s[r]))
    ensures forall j :: i <= j < r ==> IsWhitespace(s[j])
    decreases |s| - i
  {
    if i < |s| && IsWhitespace(s[i]) then SkipLeading(s, i + 1) else i
  }

  /** The index just after the last non-whitespace character of `s[lo..n]`, or `lo`. */
  function SkipTrailing(s: string, lo: nat, n: nat): (r: nat)
    requires lo <= n <= |s|
    ensures lo <= r <= n && (r == lo || !IsWhitespace(s[r - 1]))
    ensures forall j :: r <= j < n ==> IsWhitespace(s[j])
  {
    if lo < n && IsWhitespace(s[n - 1]) then SkipTrailing(s, lo, n - 1) else n
  }

  /** `s.trim()`: `s` without its leading and trailing whitespace. */
  function Trim(s: string): (r: string)
    ensures |r| <= |s|
    ensures r == [] || (!IsWhitespace(r[0]) && !IsWhitespace(r[|r| - 1]))
  {
    var b := SkipLeading(s, 0);
    s[b..SkipTrailing(s, b, |s|)]
  }

  /** `Trim` cuts away exactly a run of whitespace on each side. */
  lemma TrimRemovesWhitespace(s: string)
    ensures exists b, e ::
      && 0 <= b <= e <= |s| && Trim(s) == s[b..e]
      && (forall j :: 0 <= j < b ==> IsWhitespace(s[j]))
      && (forall j :: e <= j < |s| ==> IsWhitespace(s[j]))
  {
    var b := SkipLeading(s, 0);
    var e := SkipTrailing(s, b, |s|);
    assert Trim(s) == s[b..e];
  }

  /** A string that does not begin or end with whitespace is left as it is by `Trim`. */
  lemma TrimOfTrimmed(s: string)
    requires s == [] || (!IsWhitespace(s[0]) && !IsWhitespace(s[|s| - 1]))
    ensures Trim(s) == s
  {
    if s != [] {
      assert SkipLeading(s, 0) == 0;
      assert SkipTrailing(s, 0, |s|) == |s|;
    }
  }

  /** Trimming twice is trimming once. */
  lemma TrimIdempotent(s: string)
    ensures Trim(Trim(s)) == Trim(s)
  {
    TrimOfTrimmed(Trim(s));
  }

  /** Every piece trimmed, in order. */
  function TrimAll(parts: seq<string>): (r: seq<string>)
    ensures |r| == |parts|
    ensures forall i :: 0 <= i < |r| ==> r[i] == Trim(parts[i])
  {
    seq(|parts|, i requires 0 <= i < |parts| => Trim(parts[i]))
  }
}
