/**
 * The string operations the core relies on, with the semantics of the
 * language each side is written in: JavaScript's trim and UTF-16 length on the
 * client, Python's strip, slicing, upper/lower, `in` and replace on the server.
 */
module Text {

  /** The characters JavaScript's String.prototype.trim removes (WhiteSpace and LineTerminator). */
  predicate IsJsSpace(c: char) {
    var n := c as int;
    n == 0x09 || n == 0x0A || n == 0x0B || n == 0x0C || n == 0x0D || n == 0x20 || n == 0xA0
    || n == 0x1680 || (0x2000 <= n <= 0x200A) || n == 0x2028 || n == 0x2029 || n == 0x202F
    || n == 0x205F || n == 0x3000 || n == 0xFEFF
  }

  /** The characters Python's str.isspace accepts, which str.strip() removes. */
  predicate IsPySpace(c: char) {
    var n := c as int;
    (0x09 <= n <= 0x0D) || (0x1C <= n <= 0x20) || n == 0x85 || n == 0xA0 || n == 0x1680
    || (0x2000 <= n <= 0x200A) || n == 0x2028 || n == 0x2029 || n == 0x202F || n == 0x205F
    || n == 0x3000
  }

  /** How many characters in the class lead s. */
  function LeadingCount(s: string, space: char -> bool): (n: nat)
    ensures n <= |s|
    ensures forall k :: 0 <= k < n ==> space(s[k])
    ensures n < |s| ==> !space(s[n])
  {
    if s != [] && space(s[0]) then 1 + LeadingCount(s[1..], space) else 0
  }

  /** How many characters in the class end s. */
  function TrailingCount(s: string, space: char -> bool): (n: nat)
    ensures n <= |s|
    ensures forall k :: |s| - n <= k < |s| ==> space(s[k])
    ensures n < |s| ==> !space(s[|s| - 1 - n])
  {
    if s != [] && space(s[|s| - 1]) then 1 + TrailingCount(s[..|s| - 1], space) else 0
  }

  /** Strips both ends: a leading and a trailing run of separator characters. */
  function Trim(s: string, space: char -> bool): (r: string)
    ensures |r| <= |s|
  {
    var rest := s[LeadingCount(s, space)..];
    rest[..|rest| - TrailingCount(rest, space)]
  }

  /**
   * What Trim leaves: the part of s between a run of leading and a run of
   * trailing separator characters, with neither end a separator; it is empty
   * exactly when s is made of separators only.
   */
  lemma TrimSpec(s: string, space: char -> bool)
    ensures var r, i := Trim(s, space), LeadingCount(s, space);
      i + |r| <= |s| && r == s[i..i + |r|]
      && (forall k :: 0 <= k < i ==> space(s[k]))
      && (forall k :: i + |r| <= k < |s| ==> space(s[k]))
      && (r != [] ==> !space(r[0]) && !space(r[|r| - 1]))
      && ((forall k :: 0 <= k < |s| ==> space(s[k])) <==> r == [])
  {
    var i := LeadingCount(s, space);
    var rest := s[i..];
    var t := TrailingCount(rest, space);
    var r := rest[..|rest| - t];
    assert r == Trim(s, space);
    assert r == s[i..i + |r|];
    assert forall k :: i + |r| <= k < |s| ==> s[k] == rest[k - i];
    if r != [] {
      assert r[0] == s[i];
      assert r[|r| - 1] == rest[|rest| - 1 - t];
    }
    if forall k :: 0 <= k < |s| ==> space(s[k]) {
      assert i == |s|;
    }
  }

  /** String.prototype.trim. */
  function JsTrim(s: string): (r: string)
    ensures var i := LeadingCount(s, IsJsSpace); i + |r| <= |s| && r == s[i..i + |r|]
    ensures r != [] ==> !IsJsSpace(r[0]) && !IsJsSpace(r[|r| - 1])
  {
    TrimSpec(s, IsJsSpace);
    Trim(s, IsJsSpace)
  }

  /** str.strip() with no argument. */
  function PyStrip(s: string): (r: string)
    ensures var i := LeadingCount(s, IsPySpace); i + |r| <= |s| && r == s[i..i + |r|]
    ensures r != [] ==> !IsPySpace(r[0]) && !IsPySpace(r[|r| - 1])
  {
    TrimSpec(s, IsPySpace);
    Trim(s, IsPySpace)
  }

  /**
   * JavaScript's String length: the number of UTF-16 code units, so a
   * character outside the Basic Multilingual Plane (a surrogate pair) counts twice.
   */
  function Utf16Length(s: string): (n: nat)
    ensures |s| <= n <= 2 * |s|
    ensures (forall k :: 0 <= k < |s| ==> s[k] as int <= 0xFFFF) ==> n == |s|
  {
    if s == [] then 0
    else Utf16Length(s[..|s| - 1]) + (if s[|s| - 1] as int > 0xFFFF then 2 else 1)
  }

  /** The positions of s holding a character outside the Basic Multilingual Plane. */
  function AstralPositions(s: string): set<int> {
    set k | 0 <= k < |s| && s[k] as int > 0xFFFF
  }

  /** The UTF-16 length is one unit per character plus one per astral character. */
  lemma {:induction false} Utf16LengthCountsAstral(s: string)
    ensures Utf16Length(s) == |s| + |AstralPositions(s)|
    decreases |s|
  {
    if s == [] {
      assert AstralPositions(s) == {};
    } else {
      var init, last := s[..|s| - 1], s[|s| - 1];
      Utf16LengthCountsAstral(init);
      assert AstralPositions(s) == AstralPositions(init) + (if last as int > 0xFFFF then {|s| - 1} else {});
    }
  }

  /** The slice s[:n] of Python: at most the first n characters. */
  function Take(s: string, n: nat): (r: string)
    ensures |r| == if |s| < n then |s| else n
    ensures r == s[..|r|]
  {
    if |s| <= n then s else s[..n]
  }

  predicate StartsWith(s: string, prefix: string) {
    |prefix| <= |s| && s[..|prefix|] == prefix
  }

  /** s starts with prefix exactly when s is prefix followed by some rest. */
  lemma StartsWithIffPrefix(s: string, prefix: string)
    ensures StartsWith(s, prefix) <==> exists rest :: s == prefix + rest
  {
    if StartsWith(s, prefix) {
      assert s == prefix + s[|prefix|..];
    }
    if exists rest :: s == prefix + rest {
      var rest :| s == prefix + rest;
      assert s[..|prefix|] == prefix;
    }
  }

  /** Python's `needle in s`. */
  predicate Contains(s: string, needle: string)
    decreases |s|
  {
    StartsWith(s, needle) || (s != [] && Contains(s[1..], needle))
  }

  /** A string contains every string it is built around. */
  lemma {:induction false} ContainsInfix(a: string, needle: string, b: string)
    ensures Contains(a + needle + b, needle)
    decreases |a|
  {
    if a == [] {
      assert (a + needle + b)[..|needle|] == needle;
    } else {
      assert (a + needle + b)[1..] == a[1..] + needle + b;
      ContainsInfix(a[1..], needle, b);
    }
  }

  /** needle occurs in s starting at position i. */
  predicate OccursAt(s: string, needle: string, i: int) {
    0 <= i <= |s| - |needle| && s[i..i + |needle|] == needle
  }

  /** `needle in s` holds exactly when needle occurs at some position of s. */
  lemma {:induction false} ContainsIffOccurs(s: string, needle: string)
    ensures Contains(s, needle) <==> exists i :: OccursAt(s, needle, i)
    decreases |s|
  {
    if s == [] {
      if needle == [] {
        assert OccursAt(s, needle, 0);
      }
    } else {
      ContainsIffOccurs(s[1..], needle);
      if StartsWith(s, needle) {
        assert OccursAt(s, needle, 0);
      }
      if Contains(s[1..], needle) {
        var i :| OccursAt(s[1..], needle, i);
        assert s[i + 1..i + 1 + |needle|] == needle;
        assert OccursAt(s, needle, i + 1);
      }
      if exists i :: OccursAt(s, needle, i) {
        var i :| OccursAt(s, needle, i);
        if i > 0 {
          assert s[1..][i - 1..i - 1 + |needle|] == needle;
          assert OccursAt(s[1..], needle, i - 1);
        } else {
          assert StartsWith(s, needle);
        }
      }
    }
  }

  /** ASCII case mapping of a single character; every other character is kept. */
  function UpperChar(c: char): char {
    if 'a' <= c <= 'z' then (c as int - 32) as char else c
  }

  function LowerChar(c: char): char {
    if 'A' <= c <= 'Z' then (c as int + 32) as char else c
  }

  function Upper(s: string): (r: string)
    ensures |r| == |s| && forall k :: 0 <= k < |s| ==> r[k] == UpperChar(s[k])
    ensures forall k :: 0 <= k < |r| ==> !('a' <= r[k] <= 'z')
  {
    seq(|s|, k requires 0 <= k < |s| => UpperChar(s[k]))
  }

  function Lower(s: string): (r: string)
    ensures |r| == |s| && forall k :: 0 <= k < |s| ==> r[k] == LowerChar(s[k])
    ensures forall k :: 0 <= k < |r| ==> !('A' <= r[k] <= 'Z')
  {
    seq(|s|, k requires 0 <= k < |s| => LowerChar(s[k]))
  }

  /** Case mapping works character by character, so it distributes over concatenation. */
  lemma UpperAppend(a: string, b: string)
    ensures Upper(a + b) == Upper(a) + Upper(b)
  {
  }

  /**
   * Python's s.replace(pattern, replacement): every non-overlapping occurrence of pattern,
   * scanning from the left, is replaced by replacement; a string without one is left as it is.
   */
  function ReplaceAll(s: string, pattern: string, replacement: string): (r: string)
    requires pattern != []
    ensures StartsWith(s, pattern) ==> StartsWith(r, replacement)
    ensures !Contains(s, pattern) ==> r == s
    decreases |s|
  {
    if StartsWith(s, pattern) then
      var r := replacement + ReplaceAll(s[|pattern|..], pattern, replacement);
      assert r[..|replacement|] == replacement;
      r
    else if s == [] then []
    else [s[0]] + ReplaceAll(s[1..], pattern, replacement)
  }

  /** An occurrence at the front is replaced and the scan continues after it. */
  lemma ReplaceAllFront(pattern: string, rest: string, replacement: string)
    requires pattern != []
    ensures ReplaceAll(pattern + rest, pattern, replacement) == replacement + ReplaceAll(rest, pattern, replacement)
  {
    assert (pattern + rest)[..|pattern|] == pattern;
    assert (pattern + rest)[|pattern|..] == rest;
  }

  /** x and n agree on their common length: n could start where x starts, or x where n does. */
  predicate Overlaps(x: string, n: string)
    decreases |x|
  {
    x == [] || n == [] || (x[0] == n[0] && Overlaps(x[1..], n[1..]))
  }

  /** No occurrence of n starts inside a, not even one that runs past the end of a. */
  predicate NoStartIn(a: string, n: string)
    decreases |a|
  {
    a == [] || (!Overlaps(a, n) && NoStartIn(a[1..], n))
  }

  /** An occurrence at the front of a + b agrees with a as far as a goes. */
  lemma {:induction false} StartsWithOverlaps(a: string, b: string, n: string)
    requires StartsWith(a + b, n)
    ensures Overlaps(a, n)
    decreases |a|
  {
    if a != [] && n != [] {
      var x := a + b;
      assert x[0] == a[0] && x[1..] == a[1..] + b;
      assert x[..|n|][0] == n[0];
      assert x[1..][..|n| - 1] == x[..|n|][1..];
      StartsWithOverlaps(a[1..], b, n[1..]);
    }
  }

  /** A single disagreement within the common length rules out an overlap. */
  lemma {:induction false} MismatchBreaksOverlap(x: string, n: string, j: nat)
    requires j < |x| && j < |n| && x[j] != n[j]
    ensures !Overlaps(x, n)
  {
    if j > 0 && x[0] == n[0] {
      MismatchBreaksOverlap(x[1..], n[1..], j - 1);
    }
  }

  /** Agreeing with n over x + b means agreeing with it over x. */
  lemma {:induction false} OverlapsPrefix(x: string, b: string, n: string)
    requires Overlaps(x + b, n)
    ensures Overlaps(x, n)
    decreases |x|
  {
    if x != [] && n != [] {
      assert (x + b)[1..] == x[1..] + b;
      OverlapsPrefix(x[1..], b, n[1..]);
    }
  }

  /** No occurrence starts in a + b when none starts in a and none in b. */
  lemma {:induction false} NoStartInAppend(a: string, b: string, n: string)
    requires NoStartIn(a, n) && NoStartIn(b, n)
    ensures NoStartIn(a + b, n)
    decreases |a|
  {
    if a == [] {
      assert a + b == b;
    } else {
      if Overlaps(a + b, n) {
        OverlapsPrefix(a, b, n);
      }
      assert (a + b)[1..] == a[1..] + b;
      NoStartInAppend(a[1..], b, n);
    }
  }

  /** No occurrence of n starts in a string without n's first character. */
  lemma {:induction false} NoStartInWithoutFirst(a: string, n: string)
    requires n != [] && n[0] !in a
    ensures NoStartIn(a, n)
    decreases |a|
  {
    if a != [] {
      assert a[0] in a;
      assert forall c :: c in a[1..] ==> c in a;
      NoStartInWithoutFirst(a[1..], n);
    }
  }

  /** No occurrence of n starts in x when x disagrees with n at j and n's first character does not recur in x. */
  lemma {:induction false} NoStartInOfMismatch(x: string, n: string, j: nat)
    requires x != [] && j < |x| && j < |n| && x[j] != n[j] && n[0] !in x[1..]
    ensures NoStartIn(x, n)
  {
    MismatchBreaksOverlap(x, n, j);
    NoStartInWithoutFirst(x[1..], n);
  }

  /** Gluing a on the left of b creates no occurrence when none can start inside a. */
  lemma {:induction false} NoOccurrenceAcross(a: string, b: string, n: string)
    requires n != [] && NoStartIn(a, n) && !Contains(b, n)
    ensures !Contains(a + b, n)
    decreases |a|
  {
    if a == [] {
      assert a + b == b;
    } else {
      if StartsWith(a + b, n) {
        StartsWithOverlaps(a, b, n);
        assert false;
      }
      assert (a + b)[1..] == a[1..] + b;
      NoOccurrenceAcross(a[1..], b, n);
    }
  }

  /**
   * What replace emits, as far as it is not the replacement, is copied from
   * the input: a prefix of the output that avoids the replacement's first
   * character is a prefix of the input.
   */
  lemma {:induction false} ReplaceAllCopiesPrefix(t: string, pattern: string, replacement: string, d: string)
    requires pattern != [] && replacement != [] && d != [] && replacement[0] !in d
    requires StartsWith(ReplaceAll(t, pattern, replacement), d)
    ensures StartsWith(t, d)
    decreases |t|
  {
    var r := ReplaceAll(t, pattern, replacement);
    assert r[..|d|][0] == r[0] == d[0];
    if StartsWith(t, pattern) {
      assert false;
    } else if t != [] {
      var rest := ReplaceAll(t[1..], pattern, replacement);
      assert r == [t[0]] + rest;
      if |d| > 1 {
        assert rest[..|d| - 1] == r[..|d|][1..];
        assert forall c :: c in d[1..] ==> c in d;
        ReplaceAllCopiesPrefix(t[1..], pattern, replacement, d[1..]);
        assert t[..|d|] == [t[0]] + t[1..][..|d| - 1];
      }
    }
  }

  /**
   * When the replacement cannot give rise to a new occurrence (none starts
   * inside it, and its first character does not occur in the pattern after
   * the pattern's first position), replace leaves no occurrence at all.
   */
  lemma {:induction false} ReplaceAllLeavesNone(s: string, pattern: string, replacement: string)
    requires pattern != [] && replacement != []
    requires NoStartIn(replacement, pattern) && replacement[0] !in pattern[1..]
    ensures !Contains(ReplaceAll(s, pattern, replacement), pattern)
    decreases |s|
  {
    if StartsWith(s, pattern) {
      ReplaceAllLeavesNone(s[|pattern|..], pattern, replacement);
      NoOccurrenceAcross(replacement, ReplaceAll(s[|pattern|..], pattern, replacement), pattern);
    } else if s != [] {
      var rest := ReplaceAll(s[1..], pattern, replacement);
      ReplaceAllLeavesNone(s[1..], pattern, replacement);
      var r := [s[0]] + rest;
      assert r[1..] == rest;
      if StartsWith(r, pattern) {
        assert s[0] == pattern[0] by {
          assert r[..|pattern|][0] == r[0];
        }
        if |pattern| > 1 {
          assert rest[..|pattern| - 1] == r[..|pattern|][1..];
          ReplaceAllCopiesPrefix(s[1..], pattern, replacement, pattern[1..]);
        }
        assert false;
      }
    }
  }
}
