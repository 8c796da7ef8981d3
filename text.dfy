/**
  The string primitives the converter relies on: Python's `str.strip`,
  `str.rstrip`, `startswith`, `endswith`, `strip("`")`, `split("|")`,
  `sep.join(...)` and an ASCII `lower()`.
  Whitespace is space, tab, line feed, carriage return, vertical tab and
  form feed. `str.strip()` and the regex class `\s` accept these and also
  the separators `\x1c` to `\x1f` and the Unicode spaces; those are not
  modelled.
 */
module Text {

  predicate IsSpace(c: char) {
    c == ' ' || c == '\t' || c == '\n' || c == '\r' || c == '\U{000B}' || c == '\U{000C}'
  }

  predicate AllSpace(s: string) {
    forall i | 0 <= i < |s| :: IsSpace(s[i])
  }

  /** A string with no leading and no trailing whitespace. */
  predicate IsStripped(s: string) {
    |s| == 0 || (!IsSpace(s[0]) && !IsSpace(s[|s| - 1]))
  }

  /** `s.lstrip()`: the longest suffix of `s` that does not start with whitespace. */
  function LStrip(s: string): (r: string)
    ensures |r| <= |s| && r == s[|s| - |r|..]
    ensures AllSpace(s[..|s| - |r|])
    ensures |r| == 0 || !IsSpace(r[0])
  {
    if |s| > 0 && IsSpace(s[0]) then LStrip(s[1..]) else s
  }

  /** `s.rstrip()`: the longest prefix of `s` that does not end with whitespace. */
  function RStrip(s: string): (r: string)
    ensures |r| <= |s| && r == s[..|r|]
    ensures AllSpace(s[|r|..])
    ensures |r| == 0 || !IsSpace(r[|r| - 1])
  {
    if |s| > 0 && IsSpace(s[|s| - 1]) then RStrip(s[..|s| - 1]) else s
  }

  /** `s.strip()`: whitespace removed from both ends, one character at a time. */
  function Strip(s: string): (r: string)
    ensures IsStripped(r)
  {
    if |s| > 0 && IsSpace(s[0]) then Strip(s[1..])
    else if |s| > 0 && IsSpace(s[|s| - 1]) then Strip(s[..|s| - 1])
    else s
  }

  /** `s.strip()` is `s.lstrip()` followed by `rstrip()`: exactly the whitespace at both ends is cut off. */
  lemma {:induction false} StripIsLStripRStrip(s: string)
    ensures Strip(s) == RStrip(LStrip(s))
    decreases |s|
  {
    if |s| > 0 && IsSpace(s[0]) {
      StripIsLStripRStrip(s[1..]);
    } else if |s| > 0 && IsSpace(s[|s| - 1]) {
      var t := s[..|s| - 1];
      StripIsLStripRStrip(t);
      TrailingSpace(s, t);
    }
  }

  /** With no leading whitespace, `strip` and `rstrip` both drop a trailing whitespace character. */
  lemma TrailingSpace(s: string, t: string)
    requires |s| > 0 && !IsSpace(s[0]) && IsSpace(s[|s| - 1]) && t == s[..|s| - 1]
    ensures Strip(s) == Strip(t) && RStrip(LStrip(s)) == RStrip(LStrip(t))
  {
    assert LStrip(s) == s;
    if |t| > 0 {
      assert t[0] == s[0];
      assert LStrip(t) == t;
    }
  }

  /** A string strips to nothing exactly when it is all whitespace. */
  lemma {:induction false} StripEmpty(s: string)
    ensures Strip(s) == [] <==> AllSpace(s)
  {
    if |s| > 0 && IsSpace(s[0]) {
      StripEmpty(s[1..]);
      assert AllSpace(s) <==> AllSpace(s[1..]) by {
        assert forall i | 1 <= i < |s| :: s[i] == s[1..][i - 1];
      }
    } else if |s| > 0 && IsSpace(s[|s| - 1]) {
      StripEmpty(s[..|s| - 1]);
      assert !AllSpace(s[..|s| - 1]) && !AllSpace(s) by {
        assert !IsSpace(s[..|s| - 1][0]);
      }
    }
  }

  /** Stripping a string whose first character is not whitespace keeps that character first. */
  lemma {:induction false} StripKeepsFirst(s: string)
    requires |s| > 0 && !IsSpace(s[0])
    ensures |Strip(s)| > 0 && Strip(s)[0] == s[0]
  {
    if IsSpace(s[|s| - 1]) {
      StripKeepsFirst(s[..|s| - 1]);
    }
  }

  /** The first character of a string that does not strip to nothing is whitespace or the first character kept. */
  lemma StripFirst(s: string)
    requires Strip(s) != []
    ensures |s| > 0 && (IsSpace(s[0]) || s[0] == Strip(s)[0])
  {
    if !IsSpace(s[0]) {
      StripKeepsFirst(s);
    }
  }

  predicate StartsWith(s: string, prefix: string) {
    |prefix| <= |s| && s[..|prefix|] == prefix
  }

  predicate EndsWith(s: string, suffix: string) {
    |suffix| <= |s| && s[|s| - |suffix|..] == suffix
  }

  /** Length of the run of `c` at the start of `s`. */
  function LeadingRun(s: string, c: char): (n: nat)
    ensures n <= |s|
    ensures forall i | 0 <= i < n :: s[i] == c
    ensures n < |s| ==> s[n] != c
  {
    if |s| > 0 && s[0] == c then 1 + LeadingRun(s[1..], c) else 0
  }

  /** Length of the run of `c` at the end of `s`. */
  function TrailingRun(s: string, c: char): (n: nat)
    ensures n <= |s|
    ensures forall i | |s| - n <= i < |s| :: s[i] == c
    ensures n < |s| ==> s[|s| - n - 1] != c
  {
    if |s| > 0 && s[|s| - 1] == c then 1 + TrailingRun(s[..|s| - 1], c) else 0
  }

  /**
    `s.strip(c)` for one character `c`: `s` is the result with runs of `c`
    on either side, and the result neither starts nor ends with `c`.
   */
  function StripChar(s: string, c: char): (r: string)
    ensures |r| == 0 || (r[0] != c && r[|r| - 1] != c)
    ensures var a := LeadingRun(s, c);
      && a + |r| <= |s| && r == s[a..a + |r|]
      && forall i | a + |r| <= i < |s| :: s[i] == c
  {
    var a := LeadingRun(s, c);
    if a == |s| then
      []
    else
      var b := TrailingRun(s, c);
      assert b < |s| - a;
      s[a..|s| - b]
  }

  /** Number of occurrences of `c` in `s`. */
  function Count(s: string, c: char): nat
  {
    if s == [] then 0 else (if s[0] == c then 1 else 0) + Count(s[1..], c)
  }

  /** `sep.join(parts)` for a one-character separator. */
  function Join(parts: seq<string>, sep: char): string
  {
    if |parts| == 0 then ""
    else if |parts| == 1 then parts[0]
    else parts[0] + [sep] + Join(parts[1..], sep)
  }

  /** `s.split(sep)` for a one-character separator: one more piece than there are separators. */
  function Split(s: string, sep: char): (parts: seq<string>)
    ensures |parts| == Count(s, sep) + 1
    ensures forall k | 0 <= k < |parts| :: sep !in parts[k]
  {
    if s == [] then [""]
    else
      var rest := Split(s[1..], sep);
      if s[0] == sep then [""] + rest
      else [[s[0]] + rest[0]] + rest[1..]
  }

  /** Joining the pieces of a split restores the string. */
  lemma {:induction false} JoinSplit(s: string, sep: char)
    ensures Join(Split(s, sep), sep) == s
  {
    if s != [] {
      var rest := Split(s[1..], sep);
      JoinSplit(s[1..], sep);
      if s[0] == sep {
        assert Split(s, sep) == [""] + rest;
      } else {
        var parts := Split(s, sep);
        assert parts == [[s[0]] + rest[0]] + rest[1..];
        if |rest| == 1 {
          assert Join(parts, sep) == [s[0]] + rest[0];
        } else {
          assert parts[1..] == rest[1..];
          assert Join(rest, sep) == rest[0] + [sep] + Join(rest[1..], sep);
        }
      }
    }
  }

  /** Splitting a join of separator-free pieces gives the pieces back. */
  lemma {:induction false} SplitJoin(parts: seq<string>, sep: char)
    requires |parts| >= 1
    requires forall k | 0 <= k < |parts| :: sep !in parts[k]
    ensures Split(Join(parts, sep), sep) == parts
  {
    if |parts| == 1 {
      SplitNoSep(parts[0], sep);
    } else {
      SplitJoin(parts[1..], sep);
      SplitPrefix(parts[0], Join(parts[1..], sep), sep);
      assert [parts[0]] + parts[1..] == parts;
    }
  }

  /** A string without the separator splits into itself. */
  lemma {:induction false} SplitNoSep(s: string, sep: char)
    requires sep !in s
    ensures Split(s, sep) == [s]
  {
    if s != [] {
      assert s[0] != sep;
      SplitNoSep(s[1..], sep);
      assert [s[0]] + s[1..] == s;
    }
  }

  /** A separator-free prefix followed by a separator becomes the first piece. */
  lemma {:induction false} SplitPrefix(p: string, t: string, sep: char)
    requires sep !in p
    ensures Split(p + [sep] + t, sep) == [p] + Split(t, sep)
  {
    if p == [] {
      assert p + [sep] + t == [sep] + t;
      assert ([sep] + t)[1..] == t;
    } else {
      SplitPrefix(p[1..], t, sep);
      assert (p + [sep] + t)[1..] == p[1..] + [sep] + t;
      assert [p[0]] + p[1..] == p;
    }
  }

  /** The ASCII part of `str.lower()`. */
  function LowerChar(c: char): (r: char)
    ensures 'A' <= c <= 'Z' ==> 'a' <= r <= 'z' && r as int == c as int + 32
    ensures !('A' <= c <= 'Z') ==> r == c
  {
    if 'A' <= c <= 'Z' then (c as int + 32) as char else c
  }

  /** `s.lower()`, with only ASCII letters folded. */
  function Lower(s: string): (r: string)
    ensures |r| == |s| && forall i | 0 <= i < |s| :: r[i] == LowerChar(s[i])
  {
    seq(|s|, i requires 0 <= i < |s| => LowerChar(s[i]))
  }

  /** Python's `a or b` on strings: `a` unless it is empty. */
  function Or(a: string, b: string): (r: string)
    ensures a != [] ==> r == a
    ensures a == [] ==> r == b
    ensures r == [] <==> a == [] && b == []
  {
    if a != [] then a else b
  }
}
