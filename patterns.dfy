/**
  Line classification: the literal marker tests of `parse_markdown` and the
  four regular expressions `HEADING_RE`, `LIST_RE`, `IMG_RE` and
  `TABLE_ROW_RE`, each written out as a predicate (does the pattern match?)
  and functions for its captured groups.
 */
module Patterns {
  import opened Wrappers
  import opened Text

  const NotesStartMarker: string := "<!-- SPEAKER_NOTES_START"
  const NotesEndMarker: string := "SPEAKER_NOTES_END -->"
  const FenceMarker: string := "```"
  const SlideSeparator: string := "---"

  /** The trimmed line opens a speaker-notes block. */
  predicate IsNotesStart(line: string) {
    StartsWith(Strip(line), NotesStartMarker)
  }

  /** The trimmed line closes a speaker-notes block. */
  predicate IsNotesEnd(line: string) {
    EndsWith(Strip(line), NotesEndMarker)
  }

  /** The trimmed line is a code fence. */
  predicate IsFence(line: string) {
    StartsWith(Strip(line), FenceMarker)
  }

  /** The language tag of an opening fence: the trimmed line with backticks stripped from both ends. */
  function FenceLang(line: string): (lang: string)
  {
    StripChar(Strip(line), '`')
  }

  /** The trimmed line is the slide separator `---`. */
  predicate IsSeparator(line: string) {
    Strip(line) == SlideSeparator
  }

  predicate IsDigit(c: char) {
    '0' <= c <= '9'
  }

  /** Length of the run of ASCII digits at the start of `s`. */
  function LeadingDigits(s: string): (n: nat)
    ensures n <= |s|
    ensures forall i | 0 <= i < n :: IsDigit(s[i])
    ensures n < |s| ==> !IsDigit(s[n])
  {
    if |s| > 0 && IsDigit(s[0]) then 1 + LeadingDigits(s[1..]) else 0
  }

  // ---------------------------------------------------------------------------
  // HEADING_RE = ^(#{1,6})\s+(.*)$, matched against the raw line.
  // The `#` run cannot be cut short: a shorter run leaves a `#` where `\s+`
  // needs whitespace, so the whole leading run counts and must be 1 to 6 long.
  // ---------------------------------------------------------------------------

  predicate IsHeading(line: string) {
    var n := LeadingRun(line, '#');
    1 <= n <= 6 && n < |line| && IsSpace(line[n])
  }

  /** `len(m.group(1))` */
  function HeadingLevel(line: string): (level: int)
    requires IsHeading(line)
    ensures 1 <= level <= 6 && level < |line|
    ensures forall i | 0 <= i < level :: line[i] == '#'
    ensures IsSpace(line[level])
  {
    LeadingRun(line, '#')
  }

  /** `m.group(2).strip()`: the text after the `#` run, trimmed. */
  function HeadingText(line: string): (text: string)
    requires IsHeading(line)
    ensures IsStripped(text)
  {
    Strip(line[HeadingLevel(line)..])
  }

  // ---------------------------------------------------------------------------
  // LIST_RE = ^([*\-\+]|\d+\.)\s+(.*)$, matched against the trimmed line.
  // ---------------------------------------------------------------------------

  /** Length of the bullet marker (`*`, `-`, `+` or digits and a dot) at the start of `s`, 0 if none. */
  function ListMarkerLength(s: string): (n: nat)
    ensures n <= |s|
    ensures n > 0 ==> s[0] == '*' || s[0] == '-' || s[0] == '+' || (IsDigit(s[0]) && s[n - 1] == '.')
  {
    if |s| > 0 && (s[0] == '*' || s[0] == '-' || s[0] == '+') then 1
    else
      var d := LeadingDigits(s);
      if 0 < d < |s| && s[d] == '.' then d + 1 else 0
  }

  predicate IsListItem(s: string) {
    var n := ListMarkerLength(s);
    0 < n < |s| && IsSpace(s[n])
  }

  /** `m.group(2).strip()` of a list item. */
  function ListItemText(s: string): (text: string)
    requires IsListItem(s)
    ensures IsStripped(text)
    ensures IsStripped(s) ==> text != []
  {
    var n := ListMarkerLength(s);
    var t := s[n..];
    assert IsStripped(s) ==> !IsSpace(t[|t| - 1]);
    StripEmpty(t);
    Strip(t)
  }

  /** The line, trimmed, is a bullet or numbered list item. */
  predicate IsListLine(line: string) {
    IsListItem(Strip(line))
  }

  // ---------------------------------------------------------------------------
  // IMG_RE = ^!\[(.*?)\]\((.*?)\), matched (not full-matched) against the
  // trimmed line. Both groups are lazy: the alt text ends at the first `](`,
  // the path at the first `)` after it; whatever follows is ignored.
  // ---------------------------------------------------------------------------

  /** `pat` occurs in `s` at index `j`. */
  predicate OccursAt(s: string, pat: string, j: nat) {
    j + |pat| <= |s| && s[j..j + |pat|] == pat
  }

  /** The first index at or after `from` where `pat` occurs in `s`. */
  function IndexOf(s: string, pat: string, from: nat): (k: Option<nat>)
    ensures k.Some? ==> from <= k.value && OccursAt(s, pat, k.value)
    ensures k.Some? ==> forall j | from <= j < k.value :: !OccursAt(s, pat, j)
    ensures k.None? ==> forall j | from <= j :: !OccursAt(s, pat, j)
    decreases |s| - from
  {
    if from + |pat| > |s| then None
    else if OccursAt(s, pat, from) then Some(from)
    else IndexOf(s, pat, from + 1)
  }

  predicate IsImage(s: string) {
    StartsWith(s, "![") &&
    var close := IndexOf(s, "](", 2);
    close.Some? && IndexOf(s, ")", close.value + 2).Some?
  }

  /**
    The alt text and path captured by `IMG_RE`: the alt text runs from after
    `![` to the first `](`, the path from there to the first `)`.
   */
  function ImageParts(s: string): (parts: (string, string))
    requires IsImage(s)
    ensures var (alt, path) := parts;
      && 2 + |alt| + 2 + |path| < |s|
      && alt == s[2..2 + |alt|] && OccursAt(s, "](", 2 + |alt|)
      && path == s[4 + |alt|..4 + |alt| + |path|] && s[4 + |alt| + |path|] == ')'
    ensures forall j | 2 <= j < 2 + |parts.0| :: !OccursAt(s, "](", j)
    ensures forall j | 0 <= j < |parts.1| :: parts.1[j] != ')'
  {
    var close := IndexOf(s, "](", 2).value;
    var end := IndexOf(s, ")", close + 2).value;
    var path := s[close + 2..end];
    assert forall j | 0 <= j < |path| :: path[j] == s[close + 2 + j] && !OccursAt(s, ")", close + 2 + j);
    (s[2..close], path)
  }

  // ---------------------------------------------------------------------------
  // TABLE_ROW_RE = ^\|(.+)\|\s*$, matched against the raw line. The greedy
  // body runs to the last `|`, which may be followed only by whitespace.
  // ---------------------------------------------------------------------------

  predicate IsTableRow(line: string) {
    |line| > 0 && line[0] == '|' &&
    var t := RStrip(line);
    |t| >= 3 && t[|t| - 1] == '|'
  }

  /** `m.group(1)`: what lies between the first and the closing `|`. */
  function TableRowBody(line: string): (body: string)
    requires IsTableRow(line)
    ensures |body| >= 1 && |body| + 2 <= |line|
    ensures line == "|" + body + "|" + line[|body| + 2..]
    ensures AllSpace(line[|body| + 2..])
  {
    var t := RStrip(line);
    var body := t[1..|t| - 1];
    assert t == "|" + body + "|";
    body
  }

  // ---------------------------------------------------------------------------
  // Which tests a line can pass at once. The scan checks them in a fixed
  // order; these lemmas say that a table row, a list item and a heading can
  // never be taken by an earlier test.
  // ---------------------------------------------------------------------------

  lemma FenceFirstChar(line: string)
    requires IsFence(line)
    ensures Strip(line) != [] && Strip(line)[0] == '`'
  {
    assert Strip(line)[..3] == FenceMarker;
  }

  lemma NotesStartFirstChar(line: string)
    requires IsNotesStart(line)
    ensures Strip(line) != [] && Strip(line)[0] == '<'
  {
    assert Strip(line)[..|NotesStartMarker|] == NotesStartMarker;
  }

  lemma ImageFirstChar(line: string)
    requires IsImage(Strip(line))
    ensures Strip(line) != [] && Strip(line)[0] == '!'
  {
    assert Strip(line)[..2] == "![";
  }

  /** A string whose first character differs from that of `p` does not start with `p`. */
  lemma NotStartsWith(s: string, p: string)
    requires |s| > 0 && |p| > 0 && s[0] != p[0]
    ensures !StartsWith(s, p)
  {
    assert |p| <= |s| ==> s[..|p|][0] == s[0];
  }

  /** The first character of the trimmed line decides which marker tests it can pass. */
  lemma FirstCharRulesOut(line: string, c: char)
    requires Strip(line) != [] && Strip(line)[0] == c
    ensures c != '<' ==> !IsNotesStart(line)
    ensures c != '`' ==> !IsFence(line)
    ensures c != '-' ==> !IsSeparator(line)
    ensures c != '|' && !IsSpace(c) ==> !IsTableRow(line)
  {
    var s := Strip(line);
    StripFirst(line);
    if c != '<' {
      NotStartsWith(s, NotesStartMarker);
    }
    if c != '`' {
      NotStartsWith(s, FenceMarker);
    }
    assert SlideSeparator[0] == '-';
  }

  /** A table row starts with `|`, so no earlier test of the scan claims it. */
  lemma TableRowIsNothingElse(line: string)
    requires IsTableRow(line)
    ensures !IsNotesStart(line) && !IsFence(line) && !IsSeparator(line)
    ensures !IsHeading(line) && !IsImage(Strip(line))
  {
    var s := Strip(line);
    StripKeepsFirst(line);
    FirstCharRulesOut(line, '|');
    NotStartsWith(s, "![");
  }

  /** `TableRowIsNothingElse` for a line that is a row whenever `active` holds. */
  lemma ActiveRowIsNothingElse(line: string, active: bool)
    requires active ==> IsTableRow(line)
    ensures active ==> !IsNotesStart(line) && !IsFence(line) && !IsSeparator(line)
    ensures active ==> !IsHeading(line) && !IsImage(Strip(line))
  {
    if active {
      TableRowIsNothingElse(line);
    }
  }

  /** A heading starts with `#`, so it is neither a notes marker, a fence, `---` nor a table row. */
  lemma HeadingIsNothingEarlier(line: string)
    requires IsHeading(line)
    ensures !IsNotesStart(line) && !IsFence(line) && !IsSeparator(line) && !IsTableRow(line)
  {
    assert line[0] == '#';
    StripKeepsFirst(line);
    FirstCharRulesOut(line, '#');
  }

  /** A trimmed image reference starts with `!`, so the tests before the image test pass it by, and so does the table test. */
  lemma ImageIsNothingEarlier(line: string)
    requires IsImage(Strip(line))
    ensures !IsNotesStart(line) && !IsFence(line) && !IsSeparator(line) && !IsTableRow(line)
  {
    ImageFirstChar(line);
    FirstCharRulesOut(line, '!');
  }

  /** `---` is neither a notes marker, a fence nor a table row. */
  lemma SeparatorIsNothingEarlier(line: string)
    requires IsSeparator(line)
    ensures !IsNotesStart(line) && !IsFence(line) && !IsTableRow(line)
  {
    FirstCharRulesOut(line, '-');
  }

  /** A notes start marker is not a table row. */
  lemma NotesStartIsNotTableRow(line: string)
    requires IsNotesStart(line)
    ensures !IsTableRow(line)
  {
    NotesStartFirstChar(line);
    FirstCharRulesOut(line, '<');
  }

  /** A fence line starts with a backtick once trimmed, so it never opens speaker notes and is no table row. */
  lemma FenceIsNothingEarlier(line: string)
    requires IsFence(line)
    ensures !IsNotesStart(line) && !IsSeparator(line) && !IsTableRow(line)
  {
    FenceFirstChar(line);
    FirstCharRulesOut(line, '`');
  }

  lemma ListLineFirstChar(line: string)
    requires IsListLine(line)
    ensures var s := Strip(line); s != [] && (s[0] == '*' || s[0] == '-' || s[0] == '+' || IsDigit(s[0]))
  {
  }

  /** A trimmed list item starts with a marker, so it passes no test the scan makes before the list test. */
  lemma ListLineIsNothingElse(line: string)
    requires IsListLine(line)
    ensures !IsNotesStart(line) && !IsFence(line) && !IsSeparator(line)
    ensures !IsHeading(line) && !IsImage(Strip(line)) && !IsTableRow(line)
  {
    ListLineFirstChar(line);
    FirstCharRulesOut(line, Strip(line)[0]);
    ListLineIsNoImageOrRule(line);
    ListLineIsNoHeading(line);
  }

  lemma ListLineIsNoImageOrRule(line: string)
    requires IsListLine(line)
    ensures !IsImage(Strip(line)) && !IsSeparator(line)
  {
    ListLineFirstChar(line);
    NotStartsWith(Strip(line), "![");
    assert ListMarkerLength(SlideSeparator) == 1;
    assert !IsListItem(SlideSeparator);
  }

  lemma ListLineIsNoHeading(line: string)
    requires IsListLine(line)
    ensures !IsHeading(line)
  {
    ListLineFirstChar(line);
    StripFirst(line);
    assert LeadingRun(line, '#') == 0;
  }
}
