/** The Python `str` operations the pipeline relies on, with CPython 3 semantics:
  * `strip`, `startswith`/`endswith`, `in`, `find`, `split`, `join`, `replace`,
  * `lower` (ASCII letters only), `str(n)` for naturals and string ordering. */
module Text {
  import opened Wrappers

  /** `c.isspace()`: the characters that `str.strip()` and the regular-expression class `\s` remove. */
  predicate IsSpace(c: char) {
    || ('\t' <= c <= '\r')
    || ('\U{1C}' <= c <= ' ')
    || c == '\U{85}' || c == '\U{A0}' || c == '\U{1680}'
    || ('\U{2000}' <= c <= '\U{200A}')
    || c == '\U{2028}' || c == '\U{2029}' || c == '\U{202F}' || c == '\U{205F}' || c == '\U{3000}'
  }

  predicate IsAsciiDigit(c: char) { '0' <= c <= '9' }
  predicate IsAsciiUpper(c: char) { 'A' <= c <= 'Z' }
  predicate IsAsciiLower(c: char) { 'a' <= c <= 'z' }
  predicate IsAsciiLetter(c: char) { IsAsciiUpper(c) || IsAsciiLower(c) }

  // ---------------------------------------------------------------------------
  // Prefixes, suffixes and occurrences

  predicate StartsWith(s: string, p: string) { |p| <= |s| && s[..|p|] == p }
  predicate EndsWith(s: string, p: string) { |p| <= |s| && s[|s| - |p|..] == p }

  /** `p` occurs in `s` at index `i`. */
  predicate OccursAt(s: string, p: string, i: nat) { i + |p| <= |s| && s[i..i + |p|] == p }

  /** Python's `p in s`. */
  predicate Contains(s: string, p: string) { exists i: nat | i <= |s| :: OccursAt(s, p, i) }

  /** `s.find(p, from)` when it is not -1: the first occurrence of `p` at or after `from`. */
  function IndexOfFrom(s: string, p: string, from: nat): (r: Option<nat>)
    requires from <= |s|
    ensures r.Some? ==> from <= r.value && OccursAt(s, p, r.value)
    ensures forall j: nat :: from <= j && (r.None? || j < r.value) ==> !OccursAt(s, p, j)
    decreases |s| - from
  {
    if OccursAt(s, p, from) then Some(from)
    else if from == |s| then None
    else IndexOfFrom(s, p, from + 1)
  }

  function IndexOf(s: string, p: string): Option<nat> { IndexOfFrom(s, p, 0) }

  lemma IndexOfContains(s: string, p: string)
    ensures IndexOf(s, p).Some? <==> Contains(s, p)
  {
    if IndexOf(s, p).Some? {
      assert OccursAt(s, p, IndexOf(s, p).value);
    }
  }

  /** An occurrence inside a slice is an occurrence in the whole string. */
  lemma OccursInSlice(s: string, p: string, lo: nat, hi: nat, j: nat)
    requires lo <= hi <= |s|
    requires OccursAt(s[lo..hi], p, j)
    ensures OccursAt(s, p, lo + j)
  {
    var t := s[lo..hi];
    assert forall k :: 0 <= k < |p| ==> s[lo + j + k] == t[j + k] == p[k];
    assert s[lo + j..lo + j + |p|] == p;
  }

  /** An occurrence in a suffix is an occurrence in the whole string, shifted. */
  lemma OccursInSuffix(s: string, p: string, k: nat, j: nat)
    requires k <= |s|
    ensures OccursAt(s[k..], p, j) <==> OccursAt(s, p, k + j)
  {
    if k + j + |p| <= |s| {
      assert s[k..][j..j + |p|] == s[k + j..k + j + |p|];
    }
  }

  /** A string that does not contain `p` has no slice that contains it. */
  lemma NotContainsSlice(s: string, p: string, lo: nat, hi: nat)
    requires lo <= hi <= |s|
    requires !Contains(s, p)
    ensures !Contains(s[lo..hi], p)
  {
    forall j: nat | OccursAt(s[lo..hi], p, j) ensures false {
      OccursInSlice(s, p, lo, hi, j);
    }
  }

  lemma ContainsAt(s: string, p: string, i: nat)
    requires OccursAt(s, p, i)
    ensures Contains(s, p)
  {
  }

  /** `a + p + b` contains `p`. */
  lemma ContainsMiddle(a: string, p: string, b: string)
    ensures Contains(a + p + b, p)
  {
    assert (a + p + b)[|a|..|a| + |p|] == p;
    assert OccursAt(a + p + b, p, |a|);
  }

  /** `a + p` contains `p`. */
  lemma ContainsEnd(a: string, p: string)
    ensures Contains(a + p, p)
  {
    assert (a + p)[|a|..|a| + |p|] == p;
    assert OccursAt(a + p, p, |a|);
  }

  /** Text appended after an occurrence keeps it. */
  lemma ContainsExtend(s: string, p: string, t: string)
    requires Contains(s, p)
    ensures Contains(s + t, p)
  {
    var i: nat :| i <= |s| && OccursAt(s, p, i);
    assert (s + t)[i..i + |p|] == s[i..i + |p|];
    assert OccursAt(s + t, p, i);
  }

  /** A string none of whose characters is `c` contains no text that has `c` in it. */
  lemma NotContainsWithoutChar(s: string, p: string, c: char)
    requires c in p
    requires c !in s
    ensures !Contains(s, p)
  {
    forall i: nat | i <= |s| ensures !OccursAt(s, p, i) {
      if i + |p| <= |s| {
        var k :| 0 <= k < |p| && p[k] == c;
        assert s[i..i + |p|][k] == s[i + k];
      }
    }
  }

  // ---------------------------------------------------------------------------
  // strip

  /** `s.lstrip()`. */
  function LStrip(s: string): (r: string)
    ensures |r| <= |s| && r == s[|s| - |r|..]
    ensures r != [] ==> !IsSpace(r[0])
    ensures forall i :: 0 <= i < |s| - |r| ==> IsSpace(s[i])
    decreases |s|
  {
    if s != [] && IsSpace(s[0]) then LStrip(s[1..]) else s
  }

  /** `s.rstrip()`. */
  function RStrip(s: string): (r: string)
    ensures |r| <= |s| && r == s[..|r|]
    ensures r != [] ==> !IsSpace(r[|r| - 1])
    ensures forall i :: |r| <= i < |s| ==> IsSpace(s[i])
    decreases |s|
  {
    if s != [] && IsSpace(s[|s| - 1]) then RStrip(s[..|s| - 1]) else s
  }

  /** `s.strip()`. */
  function Strip(s: string): string { RStrip(LStrip(s)) }

  /** A stripped string has whitespace at neither end. */
  predicate IsStripped(s: string) { s == [] || (!IsSpace(s[0]) && !IsSpace(s[|s| - 1])) }

  /** `s.strip()` is the slice of `s` left after removing whitespace from both ends. */
  lemma StripIsSlice(s: string)
    ensures var r, off := Strip(s), |s| - |LStrip(s)|;
      && IsStripped(r)
      && off + |r| <= |s| && r == s[off..off + |r|]
      && (forall i :: 0 <= i < off ==> IsSpace(s[i]))
      && (forall i :: off + |r| <= i < |s| ==> IsSpace(s[i]))
  {
    StripIsStripped(s);
    StripAtOffset(s);
    StripDropsTrailing(s);
  }

  lemma StripIsStripped(s: string)
    ensures IsStripped(Strip(s))
  {
    var l := LStrip(s);
    var r := RStrip(l);
    if r != [] {
      assert r[0] == l[0];
    }
  }

  lemma StripAtOffset(s: string)
    ensures var off := |s| - |LStrip(s)|; off + |Strip(s)| <= |s| && Strip(s) == s[off..off + |Strip(s)|]
  {
    PrefixOfSuffix(s, LStrip(s), Strip(s));
  }

  /** A prefix of a suffix is a slice. */
  lemma PrefixOfSuffix(s: string, l: string, r: string)
    requires |l| <= |s| && l == s[|s| - |l|..]
    requires |r| <= |l| && r == l[..|r|]
    ensures r == s[|s| - |l|..|s| - |l| + |r|]
  {
  }

  lemma StripDropsTrailing(s: string)
    ensures forall i :: |s| - |LStrip(s)| + |Strip(s)| <= i < |s| ==> IsSpace(s[i])
  {
    var l := LStrip(s);
    var r := RStrip(l);
    var off := |s| - |l|;
    forall i | off + |r| <= i < |s| ensures IsSpace(s[i]) {
      assert s[i] == l[i - off];
    }
  }

  /** Stripping a stripped string changes nothing. */
  lemma StrippedFixpoint(s: string)
    requires IsStripped(s)
    ensures Strip(s) == s
  {
  }

  /** `s.strip().strip() == s.strip()`. */
  lemma StripIdempotent(s: string)
    ensures Strip(Strip(s)) == Strip(s)
  {
    StripIsSlice(s);
    StrippedFixpoint(Strip(s));
  }

  /** `s.strip()` is a slice of `s`. */
  lemma StripSlice(s: string) returns (off: nat)
    ensures off + |Strip(s)| <= |s| && Strip(s) == s[off..off + |Strip(s)|]
  {
    var l := LStrip(s);
    off := |s| - |l|;
    assert RStrip(l) == l[..|RStrip(l)|];
  }

  /** Stripping never creates an occurrence of a text. */
  lemma StripKeepsAbsence(s: string, p: string)
    requires !Contains(s, p)
    ensures !Contains(Strip(s), p)
  {
    var off := StripSlice(s);
    NotContainsSlice(s, p, off, off + |Strip(s)|);
  }

  /** The characters of `s.strip()` are characters of `s`. */
  lemma StripKeepsCharAbsence(s: string, c: char)
    requires c !in s
    ensures c !in Strip(s)
  {
    StripIsSlice(s);
  }

  // ---------------------------------------------------------------------------
  // split(sep, 1), split(sep), join, replace

  /** `s.split(sep, 1)[0]`: everything before the first `sep`, or all of `s`. */
  function Before(s: string, sep: string): (r: string)
    requires |sep| > 0
    ensures StartsWith(s, r)
    ensures !Contains(r, sep)
    ensures |r| < |s| <==> Contains(s, sep)
    ensures Contains(s, sep) ==> OccursAt(s, sep, |r|)
    ensures forall j: nat :: j < |r| ==> !OccursAt(s, sep, j)
  {
    IndexOfContains(s, sep);
    match IndexOf(s, sep)
    case None =>
      s
    case Some(i) =>
      assert !Contains(s[..i], sep) by {
        forall j: nat | OccursAt(s[..i], sep, j) ensures false {
          OccursInSlice(s, sep, 0, i, j);
        }
      }
      s[..i]
  }

  /** `s.split(sep, 1)[1]`: everything after the first `sep`, so that `s` is the text
    * before it, the separator and this. */
  function After(s: string, sep: string): (r: string)
    requires |sep| > 0 && Contains(s, sep)
    ensures |Before(s, sep)| + |sep| + |r| == |s|
    ensures s == Before(s, sep) + sep + r
  {
    IndexOfContains(s, sep);
    var i := IndexOf(s, sep).value;
    assert s == s[..i] + s[i..i + |sep|] + s[i + |sep|..];
    s[i + |sep|..]
  }

  /** `s.split(sep)` for a one-character separator. */
  function Split(s: string, sep: char): (parts: seq<string>)
    ensures |parts| >= 1
    ensures forall i :: 0 <= i < |parts| ==> sep !in parts[i]
    decreases |s|
  {
    if s == [] then [[]]
    else
      var rest := Split(s[1..], sep);
      if s[0] == sep then [[]] + rest else [[s[0]] + rest[0]] + rest[1..]
  }

  /** `sep.join(parts)`. */
  function Join(parts: seq<string>, sep: string): string
  {
    if parts == [] then []
    else if |parts| == 1 then parts[0]
    else parts[0] + sep + Join(parts[1..], sep)
  }

  /** Joining with a character that no part holds, then splitting on it, gives the parts back. */
  lemma {:induction false} SplitJoin(parts: seq<string>, sep: char)
    requires |parts| >= 1
    requires forall i :: 0 <= i < |parts| ==> sep !in parts[i]
    ensures Split(Join(parts, [sep]), sep) == parts
    decreases |parts|, |parts[0]|
  {
    if |parts| == 1 {
      SplitOfPlain(parts[0], sep);
    } else if parts[0] == [] {
      var rest := Join(parts[1..], [sep]);
      assert Join(parts, [sep]) == [sep] + rest;
      SplitJoin(parts[1..], sep);
      assert Split([sep] + rest, sep) == [[]] + Split(rest, sep) by {
        assert ([sep] + rest)[1..] == rest;
      }
    } else {
      var p0 := parts[0];
      var tail := [p0[1..]] + parts[1..];
      assert Join(parts, [sep]) == [p0[0]] + Join(tail, [sep]) by {
        assert Join(tail, [sep]) == p0[1..] + [sep] + Join(parts[1..], [sep]);
        assert p0 == [p0[0]] + p0[1..];
      }
      SplitJoin(tail, sep);
      var whole := [p0[0]] + Join(tail, [sep]);
      assert whole[1..] == Join(tail, [sep]);
      assert Split(whole, sep) == [[p0[0]] + tail[0]] + tail[1..];
      assert [p0[0]] + tail[0] == p0;
      assert tail[1..] == parts[1..];
    }
  }

  /** A string without the separator splits into itself. */
  lemma {:induction false} SplitOfPlain(s: string, sep: char)
    requires sep !in s
    ensures Split(s, sep) == [s]
    decreases |s|
  {
    if s != [] {
      SplitOfPlain(s[1..], sep);
      assert s == [s[0]] + s[1..];
    }
  }

  /** A joined string holds no character that neither the parts nor the separator hold. */
  lemma {:induction false} JoinWithoutChar(parts: seq<string>, sep: string, c: char)
    requires c !in sep
    requires forall i :: 0 <= i < |parts| ==> c !in parts[i]
    ensures c !in Join(parts, sep)
    decreases |parts|
  {
    if |parts| > 1 {
      JoinWithoutChar(parts[1..], sep, c);
    }
  }

  /** Each line followed by a newline, as text built with `+= line + "\n"`. */
  function Lines(lines: seq<string>): string
    decreases |lines|
  {
    if lines == [] then [] else lines[0] + "\n" + Lines(lines[1..])
  }

  lemma {:induction false} LinesSnoc(lines: seq<string>, last: string)
    ensures Lines(lines + [last]) == Lines(lines) + last + "\n"
    decreases |lines|
  {
    if lines == [] {
      assert [] + [last] == [last];
      assert Lines([last][1..]) == [];
    } else {
      assert (lines + [last])[0] == lines[0];
      assert (lines + [last])[1..] == lines[1..] + [last];
      LinesSnoc(lines[1..], last);
    }
  }

  /** Newline-terminated lines are the lines joined by newlines, then an empty last part. */
  lemma {:induction false} LinesJoin(lines: seq<string>)
    ensures Lines(lines) == Join(lines + [[]], "\n")
    decreases |lines|
  {
    if lines != [] {
      assert (lines + [[]])[0] == lines[0];
      assert (lines + [[]])[1..] == lines[1..] + [[]];
      LinesJoin(lines[1..]);
    }
  }

  /** Splitting newline-terminated lines on newlines gives the lines back, then `""`. */
  lemma LinesSplit(lines: seq<string>)
    requires forall i :: 0 <= i < |lines| ==> '\n' !in lines[i]
    ensures Split(Lines(lines), '\n') == lines + [[]]
  {
    LinesJoin(lines);
    SplitJoin(lines + [[]], '\n');
  }

  /** `s.replace(p, r)`: leftmost, non-overlapping occurrences of `p` replaced by `r`. */
  function ReplaceAll(s: string, p: string, r: string): string
    requires |p| > 0
    decreases |s|
  {
    if s == [] then []
    else if StartsWith(s, p) then r + ReplaceAll(s[|p|..], p, r)
    else [s[0]] + ReplaceAll(s[1..], p, r)
  }

  // ---------------------------------------------------------------------------
  // lower, str(n)

  /** `c.lower()` for an ASCII letter; every other character is left as it is. */
  function LowerChar(c: char): char { if IsAsciiUpper(c) then (c as int + 32) as char else c }

  /** `s.lower()`, on ASCII letters. */
  function Lower(s: string): string { seq(|s|, i requires 0 <= i < |s| => LowerChar(s[i])) }

  function DigitChar(d: nat): char
    requires d < 10
  {
    ('0' as int + d) as char
  }

  /** `str(n)` for a natural number: its decimal digits, without leading zeros. */
  function NatToString(n: nat): (r: string)
    ensures 1 <= |r|
    ensures forall i :: 0 <= i < |r| ==> IsAsciiDigit(r[i])
    ensures (n < 10) == (|r| == 1)
    decreases n
  {
    if n < 10 then [DigitChar(n)] else NatToString(n / 10) + [DigitChar(n % 10)]
  }

  /** Different naturals print differently. */
  lemma {:induction false} NatToStringInjective(m: nat, n: nat)
    requires NatToString(m) == NatToString(n)
    ensures m == n
    decreases m
  {
    if m >= 10 && n >= 10 {
      var a := NatToString(m);
      assert a[..|a| - 1] == NatToString(m / 10);
      assert a[..|a| - 1] == NatToString(n / 10);
      NatToStringInjective(m / 10, n / 10);
      assert DigitChar(m % 10) == a[|a| - 1] == DigitChar(n % 10);
    }
  }

  // ---------------------------------------------------------------------------
  // String ordering (Python compares strings code point by code point)

  predicate Less(a: string, b: string)
    decreases |a|
  {
    if a == [] then b != []
    else if b == [] then false
    else if a[0] != b[0] then a[0] < b[0]
    else Less(a[1..], b[1..])
  }

  lemma {:induction false} LessIrreflexive(a: string)
    ensures !Less(a, a)
    decreases |a|
  {
    if a != [] {
      LessIrreflexive(a[1..]);
    }
  }

  lemma {:induction false} LessTransitive(a: string, b: string, c: string)
    requires Less(a, b) && Less(b, c)
    ensures Less(a, c)
    decreases |a|
  {
    if a != [] && b != [] && c != [] && a[0] == b[0] && b[0] == c[0] {
      LessTransitive(a[1..], b[1..], c[1..]);
    }
  }

  lemma {:induction false} LessTotal(a: string, b: string)
    requires a != b
    ensures Less(a, b) || Less(b, a)
    decreases |a|
  {
    if a != [] && b != [] && a[0] == b[0] {
      assert a[1..] != b[1..] by {
        assert a == [a[0]] + a[1..] && b == [b[0]] + b[1..];
      }
      LessTotal(a[1..], b[1..]);
    }
  }

  lemma {:induction false} LessAsymmetric(a: string, b: string)
    requires Less(a, b)
    ensures !Less(b, a)
    decreases |a|
  {
    if a != [] && b != [] && a[0] == b[0] {
      LessAsymmetric(a[1..], b[1..]);
    }
  }

  predicate StrictlySorted(s: seq<string>) {
    forall i, j :: 0 <= i < j < |s| ==> Less(s[i], s[j])
  }

  /** Inserts `x` into a strictly sorted sequence unless it is already there. */
  function InsertSorted(x: string, s: seq<string>): (r: seq<string>)
    requires StrictlySorted(s)
    ensures StrictlySorted(r)
    ensures forall y :: y in r <==> y in s || y == x
    decreases |s|
  {
    if s == [] then [x]
    else if x == s[0] then s
    else if Less(x, s[0]) then
      assert StrictlySorted([x] + s) by {
        forall j | 0 < j < |s| { LessTransitive(x, s[0], s[j]); }
      }
      [x] + s
    else
      var rest := InsertSorted(x, s[1..]);
      assert Less(s[0], x) by { LessTotal(x, s[0]); }
      assert forall y :: y in rest ==> Less(s[0], y);
      [s[0]] + rest
  }

  /** `sorted(set(xs))`. */
  function SortedSet(xs: seq<string>): (r: seq<string>)
    ensures StrictlySorted(r)
    ensures forall y :: y in r <==> y in xs
    decreases |xs|
  {
    if xs == [] then []
    else
      var r := InsertSorted(xs[|xs| - 1], SortedSet(xs[..|xs| - 1]));
      assert forall y :: y in xs <==> y in xs[..|xs| - 1] || y == xs[|xs| - 1] by {
        assert xs == xs[..|xs| - 1] + [xs[|xs| - 1]];
      }
      r
  }

  lemma TakeNext<T>(s: seq<T>, i: nat)
    requires i < |s|
    ensures s[..i + 1] == s[..i] + [s[i]]
  {
  }

  lemma TakeAll<T>(s: seq<T>)
    ensures s[..|s|] == s
  {
  }

  lemma HeadIsElement<T>(s: seq<T>)
    ensures s == [] || s[0] in s
  {
  }

  /** There is exactly one strictly sorted sequence with a given set of elements. */
  lemma {:induction false} StrictlySortedUnique(a: seq<string>, b: seq<string>)
    requires StrictlySorted(a) && StrictlySorted(b)
    requires forall y :: y in a <==> y in b
    ensures a == b
    decreases |a|
  {
    if a != [] {
      assert a[0] in a;
      assert b != [] by { assert a[0] in b; }
      assert b[0] in b;
      if a[0] != b[0] {
        var k :| 0 <= k < |b| && b[k] == a[0];
        var m :| 0 <= m < |a| && a[m] == b[0];
        assert k > 0 && m > 0;
        LessAsymmetric(b[0], a[0]);
      }
      forall y ensures y in a[1..] <==> y in b[1..] {
        if y in a[1..] {
          var i :| 1 <= i < |a| && a[i] == y;
          LessIrreflexive(y);
          assert y in b && y != b[0];
        }
        if y in b[1..] {
          var i :| 1 <= i < |b| && b[i] == y;
          LessIrreflexive(y);
          assert y in a && y != a[0];
        }
      }
      StrictlySortedUnique(a[1..], b[1..]);
      assert a == [a[0]] + a[1..] && b == [b[0]] + b[1..];
    } else {
      HeadIsElement(b);
    }
  }
}
