/**
  What the scan of `parse_markdown` does with each kind of line and with runs
  of lines: code between fences, headings, `---`, list runs, table runs and
  speaker notes. Every lemma is stated over `ScanPrefix`, the state after the
  first `k` lines, so it holds for the loop in `ParseMarkdown` as well.
 */
module ParserProperties {
  import opened Wrappers
  import opened Text
  import opened Patterns
  import opened Parser

  /** The scan's state after `k` lines has no open code block and no open notes. */
  predicate Outside(lines: seq<string>, k: nat)
    requires k <= |lines|
  {
    !ScanPrefix(lines, k).inCode && !ScanPrefix(lines, k).inNotes
  }

  /** A block holding the lines from `a` up to `m - 1`, with line `m - 1` added, holds the lines from `a` up to `m`. */
  lemma GrowBlock(lines: seq<string>, a: nat, m: nat, kind: BlockType, lang: Option<string>)
    requires a < m <= |lines|
    ensures var b := Block(kind, lines[a..m - 1], 0, lang);
      b.(content := b.content + [lines[m - 1]]) == Block(kind, lines[a..m], 0, lang)
  {
    assert lines[a..m - 1] + [lines[m - 1]] == lines[a..m];
  }

  /** `GrowBlock` with the last line's index `n` passed alongside `m = n + 1`. */
  lemma GrowBlockAt(lines: seq<string>, a: nat, n: nat, m: nat, kind: BlockType, lang: Option<string>)
    requires a <= n && m == n + 1 <= |lines|
    ensures var b := Block(kind, lines[a..n], 0, lang);
      b.(content := b.content + [lines[n]]) == Block(kind, lines[a..m], 0, lang)
  {
    assert lines[a..n] + [lines[n]] == lines[a..m];
  }

  /** One more line: the state after `k + 1` lines is one `Step` from the state after `k`. */
  lemma Next(lines: seq<string>, k: nat)
    requires k < |lines|
    ensures ScanPrefix(lines, k + 1) == Step(ScanPrefix(lines, k), lines[k], Lookahead(lines, k + 1))
  {
  }

  // ---------------------------------------------------------------------------
  // Fenced code
  // ---------------------------------------------------------------------------

  /**
    After an opening fence at `k`, every line up to `m` that is not a fence
    lands verbatim in one new code block tagged with the fence's language.
   */
  lemma {:induction false} InsideCode(lines: seq<string>, k: nat, m: nat)
    requires k < m <= |lines|
    requires Outside(lines, k) && IsFence(lines[k])
    requires forall i {:trigger IsFence(lines[i])} | k < i < m :: !IsFence(lines[i])
    ensures ScanPrefix(lines, m)
         == ScanState(ScanPrefix(lines, k).blocks + [Block(Code, lines[k + 1..m], 0, Some(FenceLang(lines[k])))],
                      true, false, false)
  {
    if m == k + 1 {
      OpenCodeAt(lines, k, m);
    } else {
      InsideCode(lines, k, m - 1);
      CodeStep(lines, k, m);
    }
  }

  /** `OpenCode`, stated for the block's content up to line `m = k + 1`. */
  lemma OpenCodeAt(lines: seq<string>, k: nat, m: nat)
    requires m == k + 1 <= |lines|
    requires Outside(lines, k) && IsFence(lines[k])
    ensures ScanPrefix(lines, m)
         == ScanState(ScanPrefix(lines, k).blocks + [Block(Code, lines[k + 1..m], 0, Some(FenceLang(lines[k])))],
                      true, false, false)
  {
    OpenCode(lines, k);
    assert lines[k + 1..m] == [];
  }

  /** An opening fence outside code and notes opens an empty code block tagged with its language. */
  lemma OpenCode(lines: seq<string>, k: nat)
    requires k < |lines|
    requires Outside(lines, k) && IsFence(lines[k])
    ensures ScanPrefix(lines, k + 1)
         == ScanState(ScanPrefix(lines, k).blocks + [Block(Code, [], 0, Some(FenceLang(lines[k])))], true, false, false)
  {
    var st := ScanPrefix(lines, k);
    FenceIsNothingEarlier(lines[k]);
    Next(lines, k);
    assert Step(st, lines[k], Lookahead(lines, k + 1)) == FenceLine(st, lines[k]);
  }

  /** Inside code, a line that is not a fence is added verbatim to the open code block. */
  lemma CodeStep(lines: seq<string>, k: nat, m: nat)
    requires k + 1 < m <= |lines| && !IsFence(lines[m - 1])
    requires ScanPrefix(lines, m - 1)
          == ScanState(ScanPrefix(lines, k).blocks + [Block(Code, lines[k + 1..m - 1], 0, Some(FenceLang(lines[k])))],
                       true, false, false)
    ensures ScanPrefix(lines, m)
         == ScanState(ScanPrefix(lines, k).blocks + [Block(Code, lines[k + 1..m], 0, Some(FenceLang(lines[k])))],
                      true, false, false)
  {
    var lang := Some(FenceLang(lines[k]));
    CodeLineAppends(lines, m, ScanPrefix(lines, k).blocks, Block(Code, lines[k + 1..m - 1], 0, lang));
    GrowBlock(lines, k + 1, m, Code, lang);
  }

  lemma CodeLineAppends(lines: seq<string>, m: nat, base: seq<Block>, b: Block)
    requires 0 < m <= |lines| && !IsFence(lines[m - 1])
    requires ScanPrefix(lines, m - 1) == ScanState(base + [b], true, false, false)
    ensures ScanPrefix(lines, m) == ScanState(base + [b.(content := b.content + [lines[m - 1]])], true, false, false)
  {
    var st := ScanPrefix(lines, m - 1);
    Next(lines, m - 1);
    assert Step(st, lines[m - 1], Lookahead(lines, m)) == CodeLine(st, lines[m - 1]);
    AppendToLastOf(base, b, lines[m - 1]);
  }

  /**
    A fenced code block: an opening fence at `k` and the next fence at `j`
    give one code block holding exactly the lines between them, verbatim and
    in order, tagged with the opening fence's language; neither fence line is
    content, and afterwards the scan is outside code again.
   */
  lemma CodeFence(lines: seq<string>, k: nat, j: nat)
    requires k < j < |lines|
    requires Outside(lines, k) && IsFence(lines[k])
    requires forall i {:trigger IsFence(lines[i])} | k < i < j :: !IsFence(lines[i])
    requires IsFence(lines[j])
    ensures ScanPrefix(lines, j + 1)
         == ScanState(ScanPrefix(lines, k).blocks + [Block(Code, lines[k + 1..j], 0, Some(FenceLang(lines[k])))],
                      false, false, false)
  {
    InsideCode(lines, k, j);
    var st := ScanPrefix(lines, j);
    Next(lines, j);
    assert Step(st, lines[j], Lookahead(lines, j + 1)) == FenceLine(st, lines[j]);
  }

  // ---------------------------------------------------------------------------
  // Headings, images and `---`
  // ---------------------------------------------------------------------------

  /** A heading line outside code and notes appends one heading block holding its level and trimmed text. */
  lemma HeadingBlock(lines: seq<string>, k: nat)
    requires k < |lines|
    requires Outside(lines, k) && IsHeading(lines[k])
    ensures ScanPrefix(lines, k + 1)
         == ScanState(ScanPrefix(lines, k).blocks + [Block(Heading, [HeadingText(lines[k])], HeadingLevel(lines[k]), None)],
                      false, false, false)
  {
    var st := ScanPrefix(lines, k);
    HeadingIsNothingEarlier(lines[k]);
    Next(lines, k);
    assert Step(st, lines[k], Lookahead(lines, k + 1)) == StepOutside(st, lines[k], Lookahead(lines, k + 1));
    assert StepOutside(st, lines[k], Lookahead(lines, k + 1)) == HeadingLine(st, lines[k]);
  }

  /**
    An image reference outside code and notes that is not a heading appends
    one image block holding the alt text and the path.
   */
  lemma ImageBlock(lines: seq<string>, k: nat)
    requires k < |lines|
    requires Outside(lines, k) && !IsHeading(lines[k]) && IsImage(Strip(lines[k]))
    ensures var (alt, path) := ImageParts(Strip(lines[k]));
      ScanPrefix(lines, k + 1) == ScanState(ScanPrefix(lines, k).blocks + [Block(Image, [alt, path], 0, None)],
                                            false, false, false)
  {
    var st := ScanPrefix(lines, k);
    ImageIsNothingEarlier(lines[k]);
    Next(lines, k);
    assert Step(st, lines[k], Lookahead(lines, k + 1)) == StepOutside(st, lines[k], Lookahead(lines, k + 1));
    assert StepOutside(st, lines[k], Lookahead(lines, k + 1)) == ImageLine(st, lines[k]);
  }

  /** A `---` line outside code and notes changes nothing: no block, no flag. */
  lemma SeparatorIsIgnored(lines: seq<string>, k: nat)
    requires k < |lines|
    requires Outside(lines, k) && IsSeparator(lines[k])
    ensures ScanPrefix(lines, k + 1) == ScanPrefix(lines, k)
  {
    var st := ScanPrefix(lines, k);
    SeparatorIsNothingEarlier(lines[k]);
    Next(lines, k);
    assert Step(st, lines[k], Lookahead(lines, k + 1)) == StepOutside(st, lines[k], Lookahead(lines, k + 1));
  }

  // ---------------------------------------------------------------------------
  // List runs
  // ---------------------------------------------------------------------------

  /** `[line.rstrip() for line in xs]` */
  function RStripAll(xs: seq<string>): (r: seq<string>)
    ensures |r| == |xs|
  {
    if xs == [] then [] else RStripAll(xs[..|xs| - 1]) + [RStrip(xs[|xs| - 1])]
  }

  lemma RStripAllSnoc(xs: seq<string>, x: string)
    ensures RStripAll(xs + [x]) == RStripAll(xs) + [RStrip(x)]
  {
    assert (xs + [x])[..|xs|] == xs;
  }

  /** One list line outside code and notes: it joins a list block that is last, or opens one. */
  lemma ListLine(lines: seq<string>, k: nat)
    requires k < |lines|
    requires Outside(lines, k) && IsListLine(lines[k])
    ensures var bs := ScanPrefix(lines, k).blocks;
      ScanPrefix(lines, k + 1)
        == ScanState(if LastIs(bs, List) then AppendToLast(bs, RStrip(lines[k]))
                     else bs + [Block(List, [RStrip(lines[k])], 0, None)],
                     false, false, false)
  {
    var st, t := ScanPrefix(lines, k), RStrip(lines[k]);
    ListLineIsText(lines, k, k + 1);
    if !LastIs(st.blocks, List) {
      AppendToFresh(st.blocks, List, t);
    }
  }

  /** A list line outside code and notes is handled as text of type list, right-stripped. */
  lemma ListLineIsText(lines: seq<string>, k: nat, m: nat)
    requires m == k + 1 <= |lines|
    requires Outside(lines, k) && IsListLine(lines[k])
    ensures !ScanPrefix(lines, k).tableActive
    ensures ScanPrefix(lines, m) == TextLine(ScanPrefix(lines, k), List, RStrip(lines[k]))
  {
    var st, line, next := ScanPrefix(lines, k), lines[k], Lookahead(lines, m);
    ListLineIsNothingElse(line);
    Next(lines, k);
    assert Step(st, line, next) == StepOutside(st, line, next);
    assert StepOutside(st, line, next) == StepText(st, line);
  }

  /**
    A run of list lines from `k` up to `m`, outside code and notes and not
    following a list block, becomes exactly one list block holding the lines
    right-stripped, in order.
   */
  lemma {:induction false} ListRun(lines: seq<string>, k: nat, m: nat)
    requires k < m <= |lines|
    requires Outside(lines, k) && !LastIs(ScanPrefix(lines, k).blocks, List)
    requires forall i {:trigger IsListLine(lines[i])} | k <= i < m :: IsListLine(lines[i])
    ensures ScanPrefix(lines, m)
         == ScanState(ScanPrefix(lines, k).blocks + [Block(List, RStripAll(lines[k..m]), 0, None)], false, false, false)
  {
    if m == k + 1 {
      OpenList(lines, k);
    } else {
      var n := m - 1;
      ListRun(lines, k, n);
      ListLineAppends(lines, n, m, ScanPrefix(lines, k).blocks, Block(List, RStripAll(lines[k..n]), 0, None));
      GrowList(lines, k, n, m);
    }
  }

  /** A list line that does not follow a list block opens one holding the line right-stripped. */
  lemma OpenList(lines: seq<string>, k: nat)
    requires k < |lines|
    requires Outside(lines, k) && !LastIs(ScanPrefix(lines, k).blocks, List) && IsListLine(lines[k])
    ensures ScanPrefix(lines, k + 1)
         == ScanState(ScanPrefix(lines, k).blocks + [Block(List, RStripAll(lines[k..k + 1]), 0, None)], false, false, false)
  {
    ListLineIsText(lines, k, k + 1);
    AppendToFresh(ScanPrefix(lines, k).blocks, List, RStrip(lines[k]));
    RStripAllOne(lines, k);
  }

  lemma RStripAllOne(lines: seq<string>, k: nat)
    requires k < |lines|
    ensures RStripAll(lines[k..k + 1]) == [RStrip(lines[k])]
  {
    assert lines[k..k + 1] == [lines[k]];
  }

  lemma ListLineAppends(lines: seq<string>, n: nat, m: nat, base: seq<Block>, b: Block)
    requires m == n + 1 <= |lines| && IsListLine(lines[n]) && b.kind == List
    requires ScanPrefix(lines, n) == ScanState(base + [b], false, false, false)
    ensures ScanPrefix(lines, m) == ScanState(base + [b.(content := b.content + [RStrip(lines[n])])], false, false, false)
  {
    ListLineIsText(lines, n, m);
    AppendToLastOf(base, b, RStrip(lines[n]));
  }

  lemma GrowList(lines: seq<string>, k: nat, n: nat, m: nat)
    requires k <= n && m == n + 1 <= |lines|
    ensures RStripAll(lines[k..n]) + [RStrip(lines[n])] == RStripAll(lines[k..m])
  {
    assert lines[k..n] + [lines[n]] == lines[k..m];
    RStripAllSnoc(lines[k..n], lines[n]);
  }

  // ---------------------------------------------------------------------------
  // Table runs
  // ---------------------------------------------------------------------------

  /** `xs[a..b]`, built one element at a time from the end. */
  function Span(xs: seq<string>, a: nat, b: nat): (r: seq<string>)
    requires a <= b <= |xs|
    decreases b - a
  {
    if a == b then [] else Span(xs, a, b - 1) + [xs[b - 1]]
  }

  lemma {:induction false} SpanIsSlice(xs: seq<string>, a: nat, b: nat)
    requires a <= b <= |xs|
    ensures Span(xs, a, b) == xs[a..b]
    decreases b - a
  {
    if a < b {
      SpanIsSlice(xs, a, b - 1);
      assert xs[a..b - 1] + [xs[b - 1]] == xs[a..b];
    }
  }

  /**
    A maximal run of table rows becomes one table block holding the rows
    verbatim; a line after the run that is not a row ends the table.
   */
  lemma TableRun(lines: seq<string>, k: nat, j: nat)
    requires k < j <= |lines|
    requires Outside(lines, k) && (k == 0 || !IsTableRow(lines[k - 1]))
    requires forall i {:trigger IsTableRow(lines[i])} | k <= i < j :: IsTableRow(lines[i])
    requires j == |lines| || !IsTableRow(lines[j])
    ensures ScanPrefix(lines, j)
         == ScanState(ScanPrefix(lines, k).blocks + [Block(Table, lines[k..j], 0, None)], false, false, j == |lines|)
  {
    TableRunSpan(lines, k, j);
    SpanIsSlice(lines, k, j);
  }

  /** `TableRun`, with the rows collected by `Span`. */
  lemma TableRunSpan(lines: seq<string>, k: nat, j: nat)
    requires k < j <= |lines|
    requires Outside(lines, k) && (k == 0 || !IsTableRow(lines[k - 1]))
    requires forall i {:trigger IsTableRow(lines[i])} | k <= i < j :: IsTableRow(lines[i])
    requires j == |lines| || !IsTableRow(lines[j])
    ensures ScanPrefix(lines, j)
         == ScanState(ScanPrefix(lines, k).blocks + [Block(Table, Span(lines, k, j), 0, None)], false, false, j == |lines|)
  {
    var n := k + 1;
    if n == j {
      OpenTable(lines, k, n, j == |lines|);
    } else {
      OpenTable(lines, k, n, true);
      while n < j - 1
        invariant k < n <= j - 1
        invariant ScanPrefix(lines, n)
               == ScanState(ScanPrefix(lines, k).blocks + [Block(Table, Span(lines, k, n), 0, None)], false, false, true)
      {
        var next := n + 1;
        assert IsTableRow(lines[n]) && IsTableRow(lines[next]);
        RowStep(lines, k, n, next, true);
        n := next;
      }
      assert IsTableRow(lines[n]);
      RowStep(lines, k, n, j, j == |lines|);
    }
  }

  lemma SpanSnoc(xs: seq<string>, a: nat, n: nat, m: nat)
    requires a <= n && m == n + 1 <= |xs|
    ensures Span(xs, a, m) == Span(xs, a, n) + [xs[n]]
  {
  }

  /** Inside a run of rows, row `n` joins the table block. */
  lemma RowStep(lines: seq<string>, k: nat, n: nat, m: nat, active: bool)
    requires k < n && m == n + 1 <= |lines| && IsTableRow(lines[n])
    requires active == (m == |lines| || IsTableRow(lines[m]))
    requires ScanPrefix(lines, n)
          == ScanState(ScanPrefix(lines, k).blocks + [Block(Table, Span(lines, k, n), 0, None)], false, false, true)
    ensures ScanPrefix(lines, m)
         == ScanState(ScanPrefix(lines, k).blocks + [Block(Table, Span(lines, k, m), 0, None)], false, false, active)
  {
    TableLineAppends(lines, n, m, ScanPrefix(lines, k).blocks, Block(Table, Span(lines, k, n), 0, None), active);
    SpanSnoc(lines, k, n, m);
  }

  /** A table row outside code and notes that does not follow a row opens a table block holding it. */
  lemma OpenTable(lines: seq<string>, k: nat, m: nat, active: bool)
    requires m == k + 1 <= |lines|
    requires Outside(lines, k) && (k == 0 || !IsTableRow(lines[k - 1])) && IsTableRow(lines[k])
    requires active == (m == |lines| || IsTableRow(lines[m]))
    ensures ScanPrefix(lines, m)
         == ScanState(ScanPrefix(lines, k).blocks + [Block(Table, Span(lines, k, m), 0, None)], false, false, active)
  {
    assert Span(lines, k, m) == [lines[k]];
    var st, line, next := ScanPrefix(lines, k), lines[k], Lookahead(lines, m);
    TableRowIsNothingElse(line);
    Next(lines, k);
    assert Step(st, line, next) == StepOutside(st, line, next);
    assert StepOutside(st, line, next) == TableLine(st, line, next);
    AppendToFresh(st.blocks, Table, line);
  }

  /** While the table is active, a row is added verbatim to its block; it stays active exactly when another row follows. */
  lemma TableLineAppends(lines: seq<string>, n: nat, m: nat, base: seq<Block>, b: Block, active: bool)
    requires m == n + 1 <= |lines| && IsTableRow(lines[n])
    requires active == (m == |lines| || IsTableRow(lines[m]))
    requires ScanPrefix(lines, n) == ScanState(base + [b], false, false, true)
    ensures ScanPrefix(lines, m) == ScanState(base + [b.(content := b.content + [lines[n]])], false, false, active)
  {
    var st, line, next := ScanPrefix(lines, n), lines[n], Lookahead(lines, m);
    TableRowIsNothingElse(line);
    Next(lines, n);
    assert Step(st, line, next) == StepOutside(st, line, next);
    assert StepOutside(st, line, next) == TableLine(st, line, next);
    AppendToLastOf(base, b, line);
  }

  // ---------------------------------------------------------------------------
  // Speaker notes
  // ---------------------------------------------------------------------------

  /**
    After a notes start marker at `k` (outside code), every following line up
    to `m` that is neither a start nor an end marker lands verbatim in one new
    notes block; the marker line itself is not content, even when it also
    carries the end marker.
   */
  lemma {:induction false} InsideNotes(lines: seq<string>, k: nat, m: nat)
    requires k < m <= |lines|
    requires !ScanPrefix(lines, k).inCode && IsNotesStart(lines[k])
    requires forall i {:trigger IsNotesStart(lines[i])} | k < i < m :: !IsNotesStart(lines[i])
    requires forall i {:trigger IsNotesEnd(lines[i])} | k < i < m :: !IsNotesEnd(lines[i])
    ensures ScanPrefix(lines, m)
         == ScanState(ScanPrefix(lines, k).blocks + [Block(Notes, lines[k + 1..m], 0, None)], false, true, false)
  {
    if m == k + 1 {
      OpenNotesBlock(lines, k, m);
    } else {
      var n := m - 1;
      InsideNotes(lines, k, n);
      GrowBlockAt(lines, k + 1, n, m, Notes, None);
      NotesLineAppends(lines, n, m, ScanPrefix(lines, k).blocks, Block(Notes, lines[k + 1..n], 0, None),
                       Block(Notes, lines[k + 1..m], 0, None));
    }
  }

  /** A start marker outside code opens an empty notes block, whatever else the line holds. */
  lemma OpenNotesBlock(lines: seq<string>, k: nat, m: nat)
    requires m == k + 1 <= |lines|
    requires !ScanPrefix(lines, k).inCode && IsNotesStart(lines[k])
    ensures ScanPrefix(lines, m)
         == ScanState(ScanPrefix(lines, k).blocks + [Block(Notes, lines[k + 1..m], 0, None)], false, true, false)
  {
    NotesStartIsNotTableRow(lines[k]);
    Next(lines, k);
    assert lines[k + 1..m] == [];
  }

  lemma NotesLineAppends(lines: seq<string>, n: nat, m: nat, base: seq<Block>, b: Block, b': Block)
    requires m == n + 1 <= |lines| && !IsNotesStart(lines[n]) && !IsNotesEnd(lines[n])
    requires ScanPrefix(lines, n) == ScanState(base + [b], false, true, false)
    requires b' == b.(content := b.content + [lines[n]])
    ensures ScanPrefix(lines, m) == ScanState(base + [b'], false, true, false)
  {
    var st := ScanPrefix(lines, n);
    Next(lines, n);
    assert Step(st, lines[n], Lookahead(lines, m)) == NotesLine(st, lines[n]);
    AppendToLastOf(base, b, lines[n]);
  }

  /**
    A speaker-notes block: a start marker at `k` and the first end marker at
    `j` give one notes block holding the lines in between, verbatim; neither
    marker line is content and afterwards the scan is outside notes.
   */
  lemma NotesBlock(lines: seq<string>, k: nat, j: nat)
    requires k < j < |lines|
    requires !ScanPrefix(lines, k).inCode && IsNotesStart(lines[k])
    requires forall i {:trigger IsNotesStart(lines[i])} | k < i < j :: !IsNotesStart(lines[i])
    requires forall i {:trigger IsNotesEnd(lines[i])} | k < i < j :: !IsNotesEnd(lines[i])
    requires IsNotesEnd(lines[j]) && !IsNotesStart(lines[j])
    ensures ScanPrefix(lines, j + 1)
         == ScanState(ScanPrefix(lines, k).blocks + [Block(Notes, lines[k + 1..j], 0, None)], false, false, false)
  {
    InsideNotes(lines, k, j);
    var st := ScanPrefix(lines, j);
    Next(lines, j);
    assert Step(st, lines[j], Lookahead(lines, j + 1)) == NotesLine(st, lines[j]);
  }

  /**
    A start marker met inside notes opens a fresh notes block: the notes
    gathered so far stay in the block before it.
   */
  lemma NotesRestart(lines: seq<string>, k: nat)
    requires k < |lines|
    requires ScanPrefix(lines, k).inNotes && IsNotesStart(lines[k])
    ensures ScanPrefix(lines, k + 1)
         == ScanState(ScanPrefix(lines, k).blocks + [Block(Notes, lines[k + 1..k + 1], 0, None)], false, true, false)
  {
    NotesStartIsNotTableRow(lines[k]);
    Next(lines, k);
    assert lines[k + 1..k + 1] == [];
  }
}
