/** The handful of Python `str` operations the gateway uses, on strings as
    sequences of code points: `find`, `startswith`/`endswith`, `split`,
    `join`, `strip`/`lstrip`/`rstrip`. */
module Text {

  /** `pat` occurs in `s` starting at index `i`. */
  predicate OccursAt(s: string, pat: string, i: int)
  {
    0 <= i && i + |pat| <= |s| && s[i..i + |pat|] == pat
  }

  /** No occurrence of `pat` in `s` starts at index `from` or later. */
  ghost predicate NoneFrom(s: string, pat: string, from: int)
  {
    forall i :: from <= i ==> !OccursAt(s, pat, i)
  }

  /** `p` is the first index at or after `from` where `pat` occurs in `s`. */
  ghost predicate FirstFrom(s: string, pat: string, from: int, p: int)
  {
    from <= p && OccursAt(s, pat, p) && forall i :: from <= i < p ==> !OccursAt(s, pat, i)
  }

  /** Python's `s.find(pat, from)`: the lowest index at or after `from` at
      which `pat` occurs, or -1 when there is none. */
  function Find(s: string, pat: string, from: nat): (r: int)
    ensures r == -1 <==> NoneFrom(s, pat, from)
    ensures r != -1 ==> FirstFrom(s, pat, from, r)
    decreases |s| - from
  {
    if from + |pat| > |s| then -1
    else if s[from..from + |pat|] == pat then assert OccursAt(s, pat, from); from
    else Find(s, pat, from + 1)
  }

  /** `find` returns the first occurrence, whichever way it was found. */
  lemma FindIsFirst(s: string, pat: string, from: nat, p: int)
    requires FirstFrom(s, pat, from, p)
    ensures Find(s, pat, from) == p
  {
    assert !NoneFrom(s, pat, from) by { assert OccursAt(s, pat, p); }
  }

  /** Any occurrence at or after `from` means there is a first one. */
  lemma FirstFromExists(s: string, pat: string, from: nat, i: int)
    requires from <= i && OccursAt(s, pat, i)
    ensures exists p :: FirstFrom(s, pat, from, p)
  {
    assert !NoneFrom(s, pat, from);
    assert FirstFrom(s, pat, from, Find(s, pat, from));
  }

  /** An occurrence is ruled out by one mismatching character. */
  lemma MismatchAt(s: string, pat: string, i: int, k: int)
    requires 0 <= k < |pat| && 0 <= i + k < |s|
    requires s[i + k] != pat[k]
    ensures !OccursAt(s, pat, i)
  {
    if 0 <= i && i + |pat| <= |s| {
      assert s[i..i + |pat|][k] == s[i + k];
    }
  }

  /** An occurrence is ruled out wherever `s` does not hold the first
      character of `pat`. */
  lemma NoFirstCharNoneFrom(s: string, pat: string, from: nat)
    requires |pat| > 0
    requires forall i :: from <= i < |s| ==> s[i] != pat[0]
    ensures NoneFrom(s, pat, from)
  {
    forall i | from <= i
      ensures !OccursAt(s, pat, i)
    {
      if i < |s| {
        MismatchAt(s, pat, i, 0);
      }
    }
  }

  /** `pat` occurs right after `a` in `a + pat + b`. */
  lemma OccursAfterPrefix(a: string, pat: string, b: string)
    ensures OccursAt(a + pat + b, pat, |a|)
  {
    assert (a + pat + b)[|a|..|a| + |pat|] == pat;
  }

  /** An occurrence at or after `k` is an occurrence in `s[k..]`. */
  lemma OccursAtDrop(s: string, pat: string, k: nat, i: int)
    requires k <= i && OccursAt(s, pat, i)
    ensures OccursAt(s[k..], pat, i - k)
  {
    assert s[k..][i - k..i - k + |pat|] == s[i..i + |pat|];
  }

  /** No occurrence from `k + from` on means none in `s[k..]` from `from` on. */
  lemma NoneFromDrop(s: string, pat: string, k: nat, from: int)
    requires k <= |s| && NoneFrom(s, pat, k + from)
    ensures NoneFrom(s[k..], pat, from)
  {
    var t := s[k..];
    forall i | from <= i
      ensures !OccursAt(t, pat, i)
    {
      assert !OccursAt(s, pat, k + i);
      if 0 <= i && i + |pat| <= |t| {
        assert t[i..i + |pat|] == s[k + i..k + i + |pat|];
      }
    }
  }

  /** Python's `s.startswith(p)`. */
  predicate StartsWith(s: string, p: string)
  {
    |p| <= |s| && s[..|p|] == p
  }

  /** Python's `s.endswith(p)`. */
  predicate EndsWith(s: string, p: string)
  {
    |p| <= |s| && s[|s| - |p|..] == p
  }

  /** `startswith` holds exactly when the text is the prefix followed by
      the rest. */
  lemma StartsWithMeans(s: string, p: string)
    ensures StartsWith(s, p) <==> |p| <= |s| && s == p + s[|p|..]
  {
    if |p| <= |s| && s == p + s[|p|..] {
      assert s[..|p|] == p;
    }
  }

  /** `endswith` holds exactly when the text is the rest followed by the
      suffix. */
  lemma EndsWithMeans(s: string, p: string)
    ensures EndsWith(s, p) <==> |p| <= |s| && s == s[..|s| - |p|] + p
  {
    if |p| <= |s| && s == s[..|s| - |p|] + p {
      assert s[|s| - |p|..] == p;
    }
  }

  /** Python's `"".join(parts)`. */
  function Concat(parts: seq<string>): (r: string)
    ensures |r| == SumLengths(parts)
  {
    if parts == [] then "" else parts[0] + Concat(parts[1..])
  }

  /** The total length of a list of strings. */
  function SumLengths(parts: seq<string>): nat
  {
    if parts == [] then 0 else |parts[0]| + SumLengths(parts[1..])
  }

  /** Joining is compatible with appending one more part at the end. */
  lemma {:induction false} ConcatSnoc(parts: seq<string>, x: string)
    ensures Concat(parts + [x]) == Concat(parts) + x
  {
    if parts != [] {
      assert (parts + [x])[1..] == parts[1..] + [x];
      ConcatSnoc(parts[1..], x);
    }
  }

  /** Python's `sep.join(parts)`. */
  function JoinWith(sep: string, parts: seq<string>): (r: string)
    ensures parts == [] ==> r == ""
    ensures parts != [] ==> |r| == SumLengths(parts) + (|parts| - 1) * |sep|
  {
    if parts == [] then ""
    else if |parts| == 1 then parts[0]
    else
      parts[0] + sep + JoinWith(sep, parts[1..])
  }

  /** A join starts with the first part and ends with the last. */
  lemma {:induction false} JoinEnds(sep: string, parts: seq<string>)
    requires parts != []
    ensures StartsWith(JoinWith(sep, parts), parts[0])
    ensures EndsWith(JoinWith(sep, parts), parts[|parts| - 1])
  {
    if |parts| > 1 {
      var rest := JoinWith(sep, parts[1..]);
      assert JoinWith(sep, parts) == parts[0] + sep + rest;
      assert (parts[0] + sep + rest)[..|parts[0]|] == parts[0];
      JoinEnds(sep, parts[1..]);
      assert parts[1..][|parts[1..]| - 1] == parts[|parts| - 1];
    }
  }

  /** Joining a part in front of a non-empty list puts one separator
      between it and the join of the rest. */
  lemma JoinCons(sep: string, x: string, rest: seq<string>)
    requires rest != []
    ensures JoinWith(sep, [x] + rest) == x + sep + JoinWith(sep, rest)
  {
    assert ([x] + rest)[1..] == rest;
  }

  /** Python's `s.split(c)` for a one-character separator: the pieces
      between successive occurrences of `c`, always at least one. */
  function SplitOn(s: string, c: char): (r: seq<string>)
    ensures |r| >= 1
    ensures forall k :: 0 <= k < |r| ==> c !in r[k]
    decreases |s|
  {
    if c !in s then [s]
    else
      var i := IndexOf(s, c);
      [s[..i]] + SplitOn(s[i + 1..], c)
  }

  /** Joining the pieces of a split with the separator gives the text back. */
  lemma {:induction false} JoinSplit(s: string, c: char)
    ensures JoinWith([c], SplitOn(s, c)) == s
    decreases |s|
  {
    if c in s {
      var i := IndexOf(s, c);
      var rest := SplitOn(s[i + 1..], c);
      assert SplitOn(s, c) == [s[..i]] + rest;
      JoinCons([c], s[..i], rest);
      JoinSplit(s[i + 1..], c);
      assert s == s[..i] + [c] + s[i + 1..];
    }
  }

  /** The index of the first occurrence of `c` in `s`. */
  function IndexOf(s: string, c: char): (i: nat)
    requires c in s
    ensures i < |s| && s[i] == c && c !in s[..i]
  {
    if s[0] == c then 0
    else
      assert c in s[1..] by { assert s == [s[0]] + s[1..]; }
      1 + IndexOf(s[1..], c)
  }

  /** The first `c` in `a + [c] + b` is the one after `a` when `a` holds none. */
  lemma {:induction false} IndexOfAfter(a: string, c: char, b: string)
    requires c !in a
    ensures IndexOf(a + [c] + b, c) == |a|
  {
    if a != [] {
      assert (a + [c] + b)[1..] == a[1..] + [c] + b;
      IndexOfAfter(a[1..], c, b);
    }
  }

  /** Splitting on `c` undoes joining with `c`, provided no part holds `c`. */
  lemma {:induction false} SplitJoin(c: char, parts: seq<string>)
    requires parts != []
    requires forall k :: 0 <= k < |parts| ==> c !in parts[k]
    ensures SplitOn(JoinWith([c], parts), c) == parts
  {
    if |parts| > 1 {
      var s := JoinWith([c], parts);
      var tail := JoinWith([c], parts[1..]);
      assert s == parts[0] + [c] + tail;
      assert s[|parts[0]|] == c;
      IndexOfAfter(parts[0], c, tail);
      assert s[..|parts[0]|] == parts[0];
      assert s[|parts[0]| + 1..] == tail;
      SplitJoin(c, parts[1..]);
    } else {
      assert c !in parts[0];
    }
  }

  /** Python's `s.split(c)[0]`: the text before the first `c`. */
  function BeforeFirst(s: string, c: char): (r: string)
    ensures StartsWith(s, r) && c !in r
    ensures r == s || s[|r|] == c
  {
    if c in s then s[..IndexOf(s, c)] else s
  }

  /** Text appended after a `c` does not move the first `c`. */
  lemma BeforeFirstExtend(s: string, c: char, tail: string)
    requires c in s
    ensures BeforeFirst(s + tail, c) == BeforeFirst(s, c)
  {
    var i := IndexOf(s, c);
    assert s == s[..i] + [c] + s[i + 1..];
    assert s + tail == s[..i] + [c] + (s[i + 1..] + tail);
    IndexOfAfter(s[..i], c, s[i + 1..] + tail);
    assert (s + tail)[..i] == s[..i];
  }

  /** Text with no `c`, followed by a `c`, is cut just before that `c`. */
  lemma BeforeFirstStops(s: string, c: char, tail: string)
    requires c !in s
    ensures BeforeFirst(s + [c] + tail, c) == s
  {
    IndexOfAfter(s, c, tail);
    assert (s + [c] + tail)[..|s|] == s;
  }

  /** Python's `s.rstrip(c)` for a single character `c`. */
  function RStripChar(s: string, c: char): (r: string)
    ensures StartsWith(s, r)
    ensures r == [] || r[|r| - 1] != c
    ensures forall i :: |r| <= i < |s| ==> s[i] == c
  {
    if s != [] && s[|s| - 1] == c then RStripChar(s[..|s| - 1], c) else s
  }

  /** Python's `s.lstrip(c)` for a single character `c`. */
  function LStripChar(s: string, c: char): (r: string)
    ensures EndsWith(s, r)
    ensures r == [] || r[0] != c
    ensures forall i :: 0 <= i < |s| - |r| ==> s[i] == c
  {
    if s != [] && s[0] == c then LStripChar(s[1..], c) else s
  }

  /** Python's `str.isspace` on one character, which is also what `\s`
      matches in a `str` regular expression: the Unicode whitespace. */
  predicate IsSpace(c: char)
  {
    var n := c as int;
    (0x09 <= n <= 0x0D) || (0x1C <= n <= 0x20) || n == 0x85 || n == 0xA0 || n == 0x1680
    || (0x2000 <= n <= 0x200A) || n == 0x2028 || n == 0x2029 || n == 0x202F || n == 0x205F
    || n == 0x3000
  }

  /** The whitespace characters named by Python's documentation of `\s`
      (space, tab, newline, carriage return, vertical tab, form feed) and
      the ideographic space are whitespace; no printable ASCII character is. */
  lemma SpaceClasses(c: char)
    ensures c == ' ' || c == '\t' || c == '\n' || c == '\r' || c as int == 0x0B || c as int == 0x0C ==> IsSpace(c)
    ensures c == '\U{3000}' ==> IsSpace(c)
    ensures 0x21 <= c as int <= 0x7E ==> !IsSpace(c)
  {
  }

  ghost predicate AllSpace(s: string)
  {
    forall i :: 0 <= i < |s| ==> IsSpace(s[i])
  }

  /** The number of whitespace characters at the start of `s`. */
  function LeadingSpaces(s: string): (n: nat)
    ensures n <= |s| && AllSpace(s[..n])
    ensures n < |s| ==> !IsSpace(s[n])
  {
    if s == [] || !IsSpace(s[0]) then 0 else 1 + LeadingSpaces(s[1..])
  }

  /** The number of whitespace characters at the end of `s`. */
  function TrailingSpaces(s: string): (n: nat)
    ensures n <= |s| && AllSpace(s[|s| - n..])
    ensures n < |s| ==> !IsSpace(s[|s| - n - 1])
    ensures s != [] && !IsSpace(s[0]) ==> n < |s|
  {
    if s == [] || !IsSpace(s[|s| - 1]) then 0 else 1 + TrailingSpaces(s[..|s| - 1])
  }

  /** `r` is the slice of `s` from `i` on, with only whitespace before it
      and after it. */
  ghost predicate TrimmedAt(s: string, r: string, i: int)
  {
    0 <= i <= |s| - |r| && r == s[i..i + |r|] && AllSpace(s[..i]) && AllSpace(s[i + |r|..])
  }

  /** Python's `s.strip()`: `s` without its leading and trailing whitespace. */
  function Strip(s: string): (r: string)
    ensures |r| <= |s|
    ensures r == [] || (!IsSpace(r[0]) && !IsSpace(r[|r| - 1]))
    ensures exists i :: TrimmedAt(s, r, i)
  {
    var k := LeadingSpaces(s);
    var m := TrailingSpaces(s[k..]);
    var t := s[k..|s| - m];
    assert t == s[k..][..|s| - k - m];
    assert s[k..][|s| - k - m..] == s[|s| - m..];
    assert t != [] ==> t[0] == s[k..][0] && t[|t| - 1] == s[k..][|s| - k - m - 1];
    assert TrimmedAt(s, t, k);
    t
  }

  /** Every string ends with each of its suffixes. */
  lemma EndsWithSuffix(s: string, k: nat)
    requires k <= |s|
    ensures EndsWith(s, s[k..])
  {
  }

  /** A suffix of `b` is a suffix of `a + b`. */
  lemma EndsWithAppend(a: string, b: string, x: string)
    requires EndsWith(b, x)
    ensures EndsWith(a + b, x)
  {
    assert (a + b)[|a + b| - |x|..] == b[|b| - |x|..];
  }

  /** A string with no whitespace at either end is its own `strip()`. */
  lemma StripTrimmed(s: string)
    requires s == [] || (!IsSpace(s[0]) && !IsSpace(s[|s| - 1]))
    ensures Strip(s) == s
  {
    if s != [] {
      assert LeadingSpaces(s) == 0;
      assert TrailingSpaces(s) == 0;
    }
  }

  /** Leading whitespace stops at the first character that is not whitespace. */
  lemma {:induction false} LeadingSpacesBefore(s: string, j: int)
    requires 0 <= j < |s| && !IsSpace(s[j])
    ensures LeadingSpaces(s) <= j
    decreases j
  {
    if IsSpace(s[0]) {
      assert s[1..][j - 1] == s[j];
      LeadingSpacesBefore(s[1..], j - 1);
    }
  }

  /** `strip()` keeps a suffix that neither starts nor ends with whitespace. */
  lemma StripKeepsTail(s: string, tail: string)
    requires EndsWith(s, tail) && tail != []
    requires !IsSpace(tail[0]) && !IsSpace(tail[|tail| - 1])
    ensures EndsWith(Strip(s), tail)
  {
    var j := |s| - |tail|;
    assert s[j] == tail[0];
    LeadingSpacesBefore(s, j);
    var k := LeadingSpaces(s);
    var rest := s[k..];
    assert rest[|rest| - 1] == tail[|tail| - 1];
    assert TrailingSpaces(rest) == 0;
    assert Strip(s) == rest;
    assert rest[|rest| - |tail|..] == tail;
  }
}
