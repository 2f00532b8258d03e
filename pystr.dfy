/**
 * The two Python string operations the scraper relies on, with Python's
 * semantics: `str.strip(chars)` / `str.strip()` and `str.split(sep)` for a
 * one-character separator.
 */
module PyStr {

  /** The characters for which Python's `str.isspace()` holds; `str.strip()`
      with no argument removes exactly these. */
  const Whitespace: set<char> := {
    '\t', '\n', '\U{0B}', '\U{0C}', '\r', '\U{1C}', '\U{1D}', '\U{1E}', '\U{1F}', ' ',
    '\U{85}', '\U{A0}', '\U{1680}',
    '\U{2000}', '\U{2001}', '\U{2002}', '\U{2003}', '\U{2004}', '\U{2005}',
    '\U{2006}', '\U{2007}', '\U{2008}', '\U{2009}', '\U{200A}',
    '\U{2028}', '\U{2029}', '\U{202F}', '\U{205F}', '\U{3000}'
  }

  /** `s.lstrip(cs)`: leading characters of `cs` removed. */
  function LStrip(s: string, cs: set<char>): string
    decreases |s|
  {
    if |s| > 0 && s[0] in cs then LStrip(s[1..], cs) else s
  }

  /** `s.rstrip(cs)`: trailing characters of `cs` removed. */
  function RStrip(s: string, cs: set<char>): string
    decreases |s|
  {
    if |s| > 0 && s[|s| - 1] in cs then RStrip(s[..|s| - 1], cs) else s
  }

  /** `s.strip(cs)`: every leading and every trailing character of `cs` removed. */
  function StripChars(s: string, cs: set<char>): string
  {
    RStrip(LStrip(s, cs), cs)
  }

  /** lstrip keeps the longest suffix of `s` that does not start with a
      character of `cs`: everything it drops is in `cs`. */
  lemma {:induction false} LStripSuffix(s: string, cs: set<char>)
    ensures var r := LStrip(s, cs);
      |r| <= |s| && r == s[|s| - |r|..] &&
      (forall k :: 0 <= k < |s| - |r| ==> s[k] in cs) &&
      (r == [] || r[0] !in cs)
    decreases |s|
  {
    if |s| > 0 && s[0] in cs {
      LStripSuffix(s[1..], cs);
      var r := LStrip(s, cs);
      assert r == LStrip(s[1..], cs);
      forall k | 0 <= k < |s| - |r| ensures s[k] in cs {
        if k > 0 {
          assert s[k] == s[1..][k - 1];
        }
      }
    }
  }

  /** rstrip keeps the longest prefix of `s` that does not end with a
      character of `cs`: everything it drops is in `cs`. */
  lemma {:induction false} RStripPrefix(s: string, cs: set<char>)
    ensures var r := RStrip(s, cs);
      |r| <= |s| && r == s[..|r|] &&
      (forall k :: |r| <= k < |s| ==> s[k] in cs) &&
      (r == [] || r[|r| - 1] !in cs)
    decreases |s|
  {
    if |s| > 0 && s[|s| - 1] in cs {
      RStripPrefix(s[..|s| - 1], cs);
      var r := RStrip(s, cs);
      assert r == RStrip(s[..|s| - 1], cs);
      forall k | |r| <= k < |s| ensures s[k] in cs {
        if k < |s| - 1 {
          assert s[k] == s[..|s| - 1][k];
        }
      }
    }
  }

  /** Neither end of a stripped string is a character of `cs`, and it is
      no longer than `s`. */
  lemma StripCharsEnds(s: string, cs: set<char>)
    ensures var r := StripChars(s, cs);
      |r| <= |s| && (r == [] || (r[0] !in cs && r[|r| - 1] !in cs))
  {
    var l := LStrip(s, cs);
    LStripSuffix(s, cs);
    RStripPrefix(l, cs);
    var r := RStrip(l, cs);
    if r != [] {
      assert r[0] == l[0];
    }
  }

  /** What strip removes: the result is the infix `s[i..j]`, and everything
      before `i` and from `j` on is a character of `cs`. */
  lemma StripCharsBounds(s: string, cs: set<char>) returns (i: nat, j: nat)
    ensures i <= j <= |s| && StripChars(s, cs) == s[i..j]
    ensures forall k :: 0 <= k < i ==> s[k] in cs
    ensures forall k :: j <= k < |s| ==> s[k] in cs
  {
    var l := LStrip(s, cs);
    LStripSuffix(s, cs);
    i := |s| - |l|;
    assert l == s[i..];
    var r := RStrip(l, cs);
    RStripPrefix(l, cs);
    j := i + |r|;
    assert r == l[..|r|];
    assert r == s[i..j] by {
      forall k | 0 <= k < |r| ensures r[k] == s[i + k] {
        assert r[k] == l[k];
      }
    }
    forall k | j <= k < |s| ensures s[k] in cs {
      assert s[k] == l[k - i];
      assert |r| <= k - i < |l|;
    }
  }

  /** `s.strip()`: leading and trailing whitespace removed. */
  function Strip(s: string): string
  {
    StripChars(s, Whitespace)
  }

  /** Stripping twice removes nothing more than stripping once. */
  lemma StripCharsIdempotent(s: string, cs: set<char>)
    ensures StripChars(StripChars(s, cs), cs) == StripChars(s, cs)
  {
    var r := StripChars(s, cs);
    StripCharsEnds(s, cs);
    assert LStrip(r, cs) == r;
    assert RStrip(r, cs) == r;
  }

  /** A string with no character of `cs` at either end is left as it is. */
  lemma StripCharsKeeps(s: string, cs: set<char>)
    requires s == [] || (s[0] !in cs && s[|s| - 1] !in cs)
    ensures StripChars(s, cs) == s
  {
  }

  /** Strip's result is unique: any infix of `s` with only characters of `cs`
      outside it and none at its ends is the stripped string. */
  lemma StripCharsUnique(s: string, cs: set<char>, i: nat, j: nat)
    requires i <= j <= |s|
    requires forall k :: 0 <= k < i ==> s[k] in cs
    requires forall k :: j <= k < |s| ==> s[k] in cs
    requires i == j || (s[i] !in cs && s[j - 1] !in cs)
    ensures StripChars(s, cs) == s[i..j]
  {
    var l := LStrip(s, cs);
    LStripSuffix(s, cs);
    var li := |s| - |l|;
    if l != [] {
      assert s[li] == l[0] && s[li] !in cs;
    }
    if i == j {
      assert l == [];
    } else {
      assert li == i;
      assert l == s[i..];
      var r := RStrip(l, cs);
      RStripPrefix(l, cs);
      assert l[j - i - 1] == s[j - 1] && l[j - i - 1] !in cs;
      assert |r| >= j - i;
      assert r[|r| - 1] == s[i + |r| - 1] && s[i + |r| - 1] !in cs;
      assert |r| == j - i;
      assert r == l[..j - i] == s[i..j];
    }
  }

  /** `sep.join(parts)`: the parts with `sep` between them. */
  function Join(parts: seq<string>, sep: char): string
    decreases |parts|
  {
    if |parts| == 0 then ""
    else if |parts| == 1 then parts[0]
    else parts[0] + [sep] + Join(parts[1..], sep)
  }

  /** `s.split(sep)`: the pieces of `s` between occurrences of `sep`. */
  function Split(s: string, sep: char): (parts: seq<string>)
    ensures |parts| >= 1
    decreases |s|
  {
    if s == [] then [""]
    else
      var rest := Split(s[1..], sep);
      if s[0] == sep then [""] + rest
      else [[s[0]] + rest[0]] + rest[1..]
  }

  /** The pieces hold no separator and joined by it give back `s`; so
      there is always one more piece than there are separators. */
  lemma {:induction false} SplitPieces(s: string, sep: char)
    ensures forall i :: 0 <= i < |Split(s, sep)| ==> sep !in Split(s, sep)[i]
    ensures Join(Split(s, sep), sep) == s
    decreases |s|
  {
    if s != [] {
      var rest := Split(s[1..], sep);
      SplitPieces(s[1..], sep);
      if s[0] == sep {
        assert ([""] + rest)[1..] == rest;
      } else {
        var parts := [[s[0]] + rest[0]] + rest[1..];
        assert parts[1..] == rest[1..];
        assert s == [s[0]] + s[1..];
      }
    }
  }

  /** A string without the separator splits into itself alone. */
  lemma {:induction false} SplitNoSep(s: string, sep: char)
    requires sep !in s
    ensures Split(s, sep) == [s]
    decreases |s|
  {
    if s != [] {
      SplitNoSep(s[1..], sep);
      assert [s[0]] + s[1..] == s;
    }
  }

  /** Splitting at the first separator: the piece before it comes first. */
  lemma {:induction false} SplitAtFirst(a: string, b: string, sep: char)
    requires sep !in a
    ensures Split(a + [sep] + b, sep) == [a] + Split(b, sep)
    decreases |a|
  {
    if a == [] {
      assert a + [sep] + b == [sep] + b;
      assert ([sep] + b)[1..] == b;
    } else {
      var s := a + [sep] + b;
      assert s[1..] == a[1..] + [sep] + b;
      SplitAtFirst(a[1..], b, sep);
      assert [a[0]] + a[1..] == a;
    }
  }

  /** Round trip: splitting pieces joined by the separator gives back the pieces. */
  lemma {:induction false} SplitJoin(parts: seq<string>, sep: char)
    requires |parts| >= 1
    requires forall i :: 0 <= i < |parts| ==> sep !in parts[i]
    ensures Split(Join(parts, sep), sep) == parts
    decreases |parts|
  {
    if |parts| == 1 {
      SplitNoSep(parts[0], sep);
    } else {
      SplitJoin(parts[1..], sep);
      SplitAtFirst(parts[0], Join(parts[1..], sep), sep);
      assert [parts[0]] + parts[1..] == parts;
    }
  }

  /** `s.split(sep)` has a second piece exactly when `s` contains `sep`. */
  lemma SplitHasSecond(s: string, sep: char)
    ensures |Split(s, sep)| >= 2 <==> sep in s
  {
    SplitPieces(s, sep);
    var parts := Split(s, sep);
    if |parts| == 1 {
      assert s == parts[0];
    } else {
      assert s == parts[0] + [sep] + Join(parts[1..], sep);
      assert s[|parts[0]|] == sep;
    }
  }
}
