/** The Python string operations the dashboard relies on: str.replace,
    str.split on one separator character, and string comparison (the order
    pandas sorts the category labels in). */
module Strings {

  /** Python's `s.replace(pat, rep)`: scans left to right and replaces every
      non-overlapping occurrence of `pat`. */
  function ReplaceAll(s: string, pat: string, rep: string): string
    requires |pat| > 0
    decreases |s|
  {
    if s == [] then []
    else if |pat| <= |s| && s[..|pat|] == pat then rep + ReplaceAll(s[|pat|..], pat, rep)
    else [s[0]] + ReplaceAll(s[1..], pat, rep)
  }

  lemma {:induction false} ReplaceAllConcat(a: string, b: string, pat: char, rep: string)
    ensures ReplaceAll(a + b, [pat], rep) == ReplaceAll(a, [pat], rep) + ReplaceAll(b, [pat], rep)
  {
    if a != [] {
      assert (a + b)[..1] == a[..1];
      assert (a + b)[1..] == a[1..] + b;
      ReplaceAllConcat(a[1..], b, pat, rep);
    } else {
      assert a + b == b;
    }
  }

  /** A string without the pattern character comes back unchanged. */
  lemma {:induction false} ReplaceAllAbsent(s: string, pat: char, rep: string)
    requires pat !in s
    ensures ReplaceAll(s, [pat], rep) == s
  {
    if s != [] {
      assert s[..1] == [s[0]];
      ReplaceAllAbsent(s[1..], pat, rep);
    }
  }

  /** Turning `_` into ` vs ` and back is the identity on every string without a blank. */
  lemma {:induction false} UnderscoreRoundTrip(s: string)
    requires ' ' !in s
    ensures ReplaceAll(ReplaceAll(s, "_", " vs "), " vs ", "_") == s
  {
    if s != [] {
      var tail := ReplaceAll(s[1..], "_", " vs ");
      assert ' ' !in s[1..];
      UnderscoreRoundTrip(s[1..]);
      if s[0] == '_' {
        assert s[..1] == "_";
        var t := " vs " + tail;
        assert t[..4] == " vs ";
        assert t[4..] == tail;
      } else {
        assert s[..1] != "_";
        var t := [s[0]] + tail;
        assert t[0] != ' ';
        assert !(4 <= |t| && t[..4] == " vs ") by {
          if 4 <= |t| { assert t[..4][0] == t[0]; }
        }
        assert t[1..] == tail;
      }
    }
  }

  /** Python's `s.split(sep)` for a one-character separator. */
  function Split(s: string, sep: char): (parts: seq<string>)
    ensures |parts| >= 1
  {
    if s == [] then [""]
    else
      var rest := Split(s[1..], sep);
      if s[0] == sep then [""] + rest
      else [[s[0]] + rest[0]] + rest[1..]
  }

  lemma {:induction false} SplitAbsent(s: string, sep: char)
    requires sep !in s
    ensures Split(s, sep) == [s]
  {
    if s != [] {
      SplitAbsent(s[1..], sep);
      assert s == [s[0]] + s[1..];
    }
  }

  /** Joining two separator-free strings with the separator and splitting gives them back. */
  lemma {:induction false} SplitJoin(a: string, b: string, sep: char)
    requires sep !in a && sep !in b
    ensures Split(a + [sep] + b, sep) == [a, b]
  {
    if a == [] {
      assert a + [sep] + b == [sep] + b;
      assert ([sep] + b)[1..] == b;
      SplitAbsent(b, sep);
    } else {
      assert (a + [sep] + b)[1..] == a[1..] + [sep] + b;
      SplitJoin(a[1..], b, sep);
      assert a == [a[0]] + a[1..];
    }
  }

  /** Python's `a < b` on strings: lexicographic by code point, a proper prefix first. */
  predicate Less(a: string, b: string)
    decreases |a|
  {
    if a == [] then b != []
    else if b == [] then false
    else a[0] < b[0] || (a[0] == b[0] && Less(a[1..], b[1..]))
  }

  lemma {:induction false} LessIrreflexive(a: string)
    ensures !Less(a, a)
  {
    if a != [] {
      LessIrreflexive(a[1..]);
    }
  }

  lemma {:induction false} LessTransitive(a: string, b: string, c: string)
    requires Less(a, b) && Less(b, c)
    ensures Less(a, c)
  {
    if a != [] && a[0] == b[0] && b[0] == c[0] {
      LessTransitive(a[1..], b[1..], c[1..]);
    }
  }

  lemma {:induction false} LessTotal(a: string, b: string)
    requires a != b
    ensures Less(a, b) || Less(b, a)
  {
    if a != [] && b != [] && a[0] == b[0] {
      assert a == [a[0]] + a[1..];
      assert b == [b[0]] + b[1..];
      LessTotal(a[1..], b[1..]);
    }
  }
}
