/**
  `parse_markdown`: one forward scan over the lines of a Markdown document
  that builds a list of typed blocks. The scan keeps three flags (inside a
  code fence, inside speaker notes, inside a table) and extends the most
  recent block in place.

  `Step` and `ScanPrefix` state what the scan does, one line at a time;
  `ParseMarkdown` is the loop itself, proved to compute `Parse`.
 */
module Parser {
  import opened Wrappers
  import opened Text
  import opened Patterns

  /** The `type` strings of the source: "heading", "list", "para", "code", "image", "table", "notes". */
  datatype BlockType = Heading | List | Para | Code | Image | Table | Notes

  /** A parsed block: its type, its lines of content, a heading level and a code language. */
  datatype Block = Block(kind: BlockType, content: seq<string>, level: int, lang: Option<string>)

  /**
    The shape every block the scan produces has: a heading holds exactly its
    text and a level from 1 to 6; an image holds its alt text and path; only
    code blocks carry a language.
   */
  predicate WellFormed(b: Block) {
    && (b.kind == Heading ==> 1 <= b.level <= 6 && |b.content| == 1)
    && (b.kind != Heading ==> b.level == 0)
    && (b.kind == Image ==> |b.content| == 2)
    && (b.lang.Some? <==> b.kind == Code)
  }

  /** `Block(kind, [])` */
  function NewBlock(kind: BlockType): Block {
    Block(kind, [], 0, None)
  }

  /** `blocks` is non-empty and `blocks[-1].type == kind`. */
  predicate LastIs(blocks: seq<Block>, kind: BlockType) {
    |blocks| > 0 && blocks[|blocks| - 1].kind == kind
  }

  predicate AllWellFormed(blocks: seq<Block>) {
    forall i | 0 <= i < |blocks| :: WellFormed(blocks[i])
  }

  /**
    How a scan step may change the block list: blocks are only added at the
    end, and of the blocks already there only the last one may change, and
    then only by receiving more lines.
   */
  predicate Extends(before: seq<Block>, after: seq<Block>) {
    && |before| <= |after|
    && (forall i {:trigger after[i], before[i]} | 0 <= i < |before| - 1 :: after[i] == before[i])
    && (|before| > 0 ==>
          var b, a := before[|before| - 1], after[|before| - 1];
          a.kind == b.kind && a.level == b.level && a.lang == b.lang && b.content <= a.content)
  }

  lemma ExtendsTransitive(a: seq<Block>, b: seq<Block>, c: seq<Block>)
    requires Extends(a, b) && Extends(b, c)
    ensures Extends(a, c)
  {
    forall i | 0 <= i < |a| - 1
      ensures c[i] == a[i]
    {
      assert b[i] == a[i];
      assert c[i] == b[i];
    }
    if |a| > 0 && |a| < |b| {
      assert c[|a| - 1] == b[|a| - 1];
    }
  }

  /** `blocks.append(b)` */
  function Push(blocks: seq<Block>, b: Block): (r: seq<Block>)
    ensures |r| == |blocks| + 1 && r[..|blocks|] == blocks && r[|blocks|] == b
    ensures Extends(blocks, r)
    ensures AllWellFormed(blocks) && WellFormed(b) ==> AllWellFormed(r)
  {
    blocks + [b]
  }

  /** `blocks[-1].content.append(line)` */
  function AppendToLast(blocks: seq<Block>, line: string): (r: seq<Block>)
    requires |blocks| > 0
    ensures |r| == |blocks| && r[..|r| - 1] == blocks[..|blocks| - 1]
    ensures var b, a := blocks[|blocks| - 1], r[|r| - 1];
      a.kind == b.kind && a.level == b.level && a.lang == b.lang && a.content == b.content + [line]
    ensures Extends(blocks, r)
    ensures AllWellFormed(blocks) && blocks[|blocks| - 1].kind != Heading && blocks[|blocks| - 1].kind != Image
            ==> AllWellFormed(r)
  {
    var last := blocks[|blocks| - 1];
    blocks[|blocks| - 1 := last.(content := last.content + [line])]
  }

  /** Adding a line to the last of `bs + [b]` adds it to `b` and leaves `bs` alone. */
  lemma AppendToLastOf(bs: seq<Block>, b: Block, line: string)
    ensures AppendToLast(bs + [b], line) == bs + [Block(b.kind, b.content + [line], b.level, b.lang)]
  {
    var r := AppendToLast(bs + [b], line);
    assert r[..|bs|] == bs;
  }

  /** Opening a block and adding a line to it gives a block holding just that line. */
  lemma AppendToFresh(bs: seq<Block>, kind: BlockType, line: string)
    ensures AppendToLast(Push(bs, NewBlock(kind)), line) == bs + [Block(kind, [line], 0, None)]
  {
    AppendToLastOf(bs, NewBlock(kind), line);
    assert NewBlock(kind).content + [line] == [line];
  }

  /** The scan's variables besides the line index: `blocks`, `in_code`, `in_notes` and `table_active`. */
  datatype ScanState = ScanState(blocks: seq<Block>, inCode: bool, inNotes: bool, tableActive: bool) {
    /**
      What makes every `blocks[-1]` of the scan safe: each flag that is set
      names the type of the last block. As the types differ, at most one flag
      is set at a time. (That every block is well formed is kept apart, in
      `ScanWellFormed`.)
     */
    predicate Valid() {
      && (inCode ==> LastIs(blocks, Code))
      && (inNotes ==> LastIs(blocks, Notes))
      && (tableActive ==> LastIs(blocks, Table))
    }
  }

  const Start := ScanState([], false, false, false)

  /** The line after index `k - 1`, the one the table test looks ahead to. */
  function Lookahead(lines: seq<string>, k: nat): Option<string> {
    if k < |lines| then Some(lines[k]) else None
  }

  /**
    One pass of the scan's loop body on `line`, whose successor is `next`.
    The tests run in the source's order: notes start, inside notes, fence,
    inside code, then (in `StepOutside`) `---`, heading, image, table row,
    and (in `StepText`) list item, paragraph text, blank line.
   */
  function Step(st: ScanState, line: string, next: Option<string>): (r: ScanState)
    requires st.Valid()
    requires st.tableActive ==> IsTableRow(line)
    ensures r.Valid()
    ensures r.tableActive ==> IsTableRow(line) && (next.Some? ==> IsTableRow(next.value))
    ensures Extends(st.blocks, r.blocks)
  {
    ActiveRowIsNothingElse(line, st.tableActive);
    if !st.inCode && IsNotesStart(line) then OpenNotes(st)
    else if st.inNotes then NotesLine(st, line)
    else if IsFence(line) then FenceLine(st, line)
    else if st.inCode then CodeLine(st, line)
    else StepOutside(st, line, next)
  }

  /** A notes start marker outside code opens a notes block; the marker itself is not content. */
  function OpenNotes(st: ScanState): (r: ScanState)
    requires st.Valid() && !st.inCode && !st.tableActive
    ensures r.Valid() && r.inNotes && !r.inCode && !r.tableActive
    ensures Extends(st.blocks, r.blocks)
  {
    st.(blocks := Push(st.blocks, NewBlock(Notes)), inNotes := true)
  }

  /** Inside notes: the end marker closes them, any other line is kept verbatim. */
  function NotesLine(st: ScanState, line: string): (r: ScanState)
    requires st.Valid() && st.inNotes
    ensures r.Valid() && !r.inCode && !r.tableActive
    ensures Extends(st.blocks, r.blocks)
  {
    if IsNotesEnd(line) then st.(inNotes := false)
    else st.(blocks := AppendToLast(st.blocks, line))
  }

  /** A fence opens a code block tagged with its language, or closes the open one. */
  function FenceLine(st: ScanState, line: string): (r: ScanState)
    requires st.Valid() && !st.inNotes && !st.tableActive
    ensures r.Valid() && !r.inNotes && !r.tableActive
    ensures Extends(st.blocks, r.blocks)
  {
    if !st.inCode then st.(blocks := Push(st.blocks, Block(Code, [], 0, Some(FenceLang(line)))), inCode := true)
    else st.(inCode := false)
  }

  /** Inside code every line is kept verbatim. */
  function CodeLine(st: ScanState, line: string): (r: ScanState)
    requires st.Valid() && st.inCode && !st.inNotes
    ensures r.Valid() && r.inCode && !r.inNotes && !r.tableActive
    ensures Extends(st.blocks, r.blocks)
  {
    st.(blocks := AppendToLast(st.blocks, line))
  }

  /** The rest of the loop body, for a line outside code and speaker notes. */
  function StepOutside(st: ScanState, line: string, next: Option<string>): (r: ScanState)
    requires st.Valid() && !st.inCode && !st.inNotes
    requires st.tableActive ==> IsTableRow(line)
    ensures r.Valid()
    ensures r.tableActive ==> IsTableRow(line) && (next.Some? ==> IsTableRow(next.value))
    ensures Extends(st.blocks, r.blocks)
  {
    ActiveRowIsNothingElse(line, st.tableActive);
    if IsSeparator(line) then st
    else if IsHeading(line) then HeadingLine(st, line)
    else if IsImage(Strip(line)) then ImageLine(st, line)
    else if IsTableRow(line) then TableLine(st, line, next)
    else StepText(st, line)
  }

  /** A heading always starts a block of its own. */
  function HeadingLine(st: ScanState, line: string): (r: ScanState)
    requires st.Valid() && !st.inCode && !st.inNotes && !st.tableActive
    requires IsHeading(line)
    ensures r.Valid() && !r.inCode && !r.inNotes && !r.tableActive
    ensures Extends(st.blocks, r.blocks)
  {
    st.(blocks := Push(st.blocks, Block(Heading, [HeadingText(line)], HeadingLevel(line), None)))
  }

  /** An image reference always starts a block of its own, holding the alt text and the path. */
  function ImageLine(st: ScanState, line: string): (r: ScanState)
    requires st.Valid() && !st.inCode && !st.inNotes && !st.tableActive
    requires IsImage(Strip(line))
    ensures r.Valid() && !r.inCode && !r.inNotes && !r.tableActive
    ensures Extends(st.blocks, r.blocks)
  {
    var (alt, path) := ImageParts(Strip(line));
    st.(blocks := Push(st.blocks, Block(Image, [alt, path], 0, None)))
  }

  /**
    A table row joins the open table or opens one; the table stays open only
    if the next line is a row too (or there is no next line).
   */
  function TableLine(st: ScanState, line: string, next: Option<string>): (r: ScanState)
    requires st.Valid() && !st.inCode && !st.inNotes
    requires IsTableRow(line)
    ensures r.Valid() && !r.inCode && !r.inNotes
    ensures r.tableActive <==> next.None? || IsTableRow(next.value)
    ensures Extends(st.blocks, r.blocks)
  {
    var bs := if st.tableActive then st.blocks else Push(st.blocks, NewBlock(Table));
    var bs' := AppendToLast(bs, line);
    ExtendsTransitive(st.blocks, bs, bs');
    st.(blocks := bs', tableActive := !(next.Some? && !IsTableRow(next.value)))
  }

  /** A list item, paragraph text or a blank line; none of them touches the flags. */
  function StepText(st: ScanState, line: string): (r: ScanState)
    requires st.Valid() && !st.inCode && !st.inNotes && !st.tableActive
    ensures r.Valid() && !r.inCode && !r.inNotes && !r.tableActive
    ensures Extends(st.blocks, r.blocks)
  {
    if IsListLine(line) then TextLine(st, List, RStrip(line))
    else if Strip(line) != "" then TextLine(st, Para, RStrip(line))
    else if LastIs(st.blocks, Para) then st.(blocks := AppendToLast(st.blocks, ""))
    else st
  }

  /** A list or paragraph line joins the last block if that has the same type, or else opens one. */
  function TextLine(st: ScanState, kind: BlockType, text: string): (r: ScanState)
    requires st.Valid() && !st.inCode && !st.inNotes && !st.tableActive
    requires kind == List || kind == Para
    ensures r.Valid() && !r.inCode && !r.inNotes && !r.tableActive
    ensures Extends(st.blocks, r.blocks)
  {
    var bs := if LastIs(st.blocks, kind) then st.blocks else Push(st.blocks, NewBlock(kind));
    var bs' := AppendToLast(bs, text);
    ExtendsTransitive(st.blocks, bs, bs');
    st.(blocks := bs')
  }

  /**
    The scan's state after the first `k` lines. A table left open is only
    ever left open in front of another table row, which is what makes the
    next step's table test agree with the flag.
   */
  function ScanPrefix(lines: seq<string>, k: nat): (st: ScanState)
    requires k <= |lines|
    ensures st.Valid()
    ensures st.tableActive ==> 0 < k && IsTableRow(lines[k - 1]) && (k < |lines| ==> IsTableRow(lines[k]))
  {
    if k == 0 then Start
    else Step(ScanPrefix(lines, k - 1), lines[k - 1], Lookahead(lines, k))
  }

  /** `parse_markdown`, for a document given as its lines: every block it returns is well formed. */
  function Parse(lines: seq<string>): (blocks: seq<Block>)
    ensures forall i | 0 <= i < |blocks| :: WellFormed(blocks[i])
  {
    ScanWellFormed(lines, |lines|);
    ScanPrefix(lines, |lines|).blocks
  }

  /** One step of the scan keeps every block well formed: headings and images are never appended to. */
  lemma StepWellFormed(st: ScanState, line: string, next: Option<string>)
    requires st.Valid() && (st.tableActive ==> IsTableRow(line))
    requires AllWellFormed(st.blocks)
    ensures AllWellFormed(Step(st, line, next).blocks)
  {
    ActiveRowIsNothingElse(line, st.tableActive);
    if !st.inCode && IsNotesStart(line) {
    } else if st.inNotes {
    } else if IsFence(line) {
    } else if st.inCode {
    } else {
      StepOutsideWellFormed(st, line, next);
    }
  }

  lemma StepOutsideWellFormed(st: ScanState, line: string, next: Option<string>)
    requires st.Valid() && !st.inCode && !st.inNotes && (st.tableActive ==> IsTableRow(line))
    requires AllWellFormed(st.blocks)
    ensures AllWellFormed(StepOutside(st, line, next).blocks)
  {
    ActiveRowIsNothingElse(line, st.tableActive);
    if IsSeparator(line) {
    } else if IsHeading(line) {
      assert StepOutside(st, line, next) == HeadingLine(st, line);
    } else if IsImage(Strip(line)) {
      assert StepOutside(st, line, next) == ImageLine(st, line);
    } else if IsTableRow(line) {
      assert StepOutside(st, line, next) == TableLine(st, line, next);
      TableLineWellFormed(st, line, next);
    } else {
      assert StepOutside(st, line, next) == StepText(st, line);
      StepTextWellFormed(st, line);
    }
  }

  lemma TableLineWellFormed(st: ScanState, line: string, next: Option<string>)
    requires st.Valid() && !st.inCode && !st.inNotes && IsTableRow(line)
    requires AllWellFormed(st.blocks)
    ensures AllWellFormed(TableLine(st, line, next).blocks)
  {
  }

  lemma StepTextWellFormed(st: ScanState, line: string)
    requires st.Valid() && !st.inCode && !st.inNotes && !st.tableActive
    requires AllWellFormed(st.blocks)
    ensures AllWellFormed(StepText(st, line).blocks)
  {
    if IsListLine(line) {
      TextLineWellFormed(st, List, RStrip(line));
    } else if Strip(line) != "" {
      TextLineWellFormed(st, Para, RStrip(line));
    }
  }

  lemma TextLineWellFormed(st: ScanState, kind: BlockType, text: string)
    requires st.Valid() && !st.inCode && !st.inNotes && !st.tableActive
    requires kind == List || kind == Para
    requires AllWellFormed(st.blocks)
    ensures AllWellFormed(TextLine(st, kind, text).blocks)
  {
    var bs := if LastIs(st.blocks, kind) then st.blocks else Push(st.blocks, NewBlock(kind));
    assert AllWellFormed(bs);
  }

  /** Every block of every prefix of the scan is well formed. */
  lemma {:induction false} ScanWellFormed(lines: seq<string>, k: nat)
    requires k <= |lines|
    ensures AllWellFormed(ScanPrefix(lines, k).blocks)
  {
    if k > 0 {
      ScanWellFormed(lines, k - 1);
      StepWellFormed(ScanPrefix(lines, k - 1), lines[k - 1], Lookahead(lines, k));
    }
  }

  /** The scan as the source runs it: a loop over the lines that updates the flags and the block list. */
  method ParseMarkdown(lines: seq<string>) returns (blocks: seq<Block>)
    ensures blocks == Parse(lines)
  {
    blocks := [];
    var inCode, tableActive, inNotes := false, false, false;
    for i := 0 to |lines|
      invariant ScanPrefix(lines, i) == ScanState(blocks, inCode, inNotes, tableActive)
    {
      blocks, inCode, inNotes, tableActive := ScanLine(lines, i, blocks, inCode, inNotes, tableActive);
    }
  }

  /** The loop body for line `i`: notes, fences and code first, then the rest. */
  method ScanLine(lines: seq<string>, i: nat, blocks: seq<Block>, inCode: bool, inNotes: bool, tableActive: bool)
    returns (blocks': seq<Block>, inCode': bool, inNotes': bool, tableActive': bool)
    requires i < |lines|
    requires ScanPrefix(lines, i) == ScanState(blocks, inCode, inNotes, tableActive)
    ensures ScanPrefix(lines, i + 1) == ScanState(blocks', inCode', inNotes', tableActive')
  {
    var line, next := lines[i], Lookahead(lines, i + 1);
    ghost var before := ScanState(blocks, inCode, inNotes, tableActive);
    assert ScanPrefix(lines, i + 1) == Step(before, line, next);
    blocks', inCode', inNotes', tableActive' := blocks, inCode, inNotes, tableActive;
    ActiveRowIsNothingElse(line, tableActive);
    if !inCode && IsNotesStart(line) {
      inNotes' := true;
      blocks' := Push(blocks', NewBlock(Notes));
    } else if inNotes {
      if IsNotesEnd(line) {
        inNotes' := false;
      } else {
        blocks' := AppendToLast(blocks', line);
      }
    } else if IsFence(line) {
      if !inCode {
        inCode' := true;
        blocks' := Push(blocks', Block(Code, [], 0, Some(FenceLang(line))));
      } else {
        inCode' := false;
      }
    } else if inCode {
      blocks' := AppendToLast(blocks', line);
    } else {
      blocks', tableActive' := ScanOutsideLine(blocks', tableActive', line, next);
    }
  }

  /** The part of the loop body that runs outside code and notes: separator, heading, image, table, list, paragraph. */
  method ScanOutsideLine(blocks: seq<Block>, tableActive: bool, line: string, next: Option<string>)
    returns (blocks': seq<Block>, tableActive': bool)
    requires ScanState(blocks, false, false, tableActive).Valid()
    requires tableActive ==> IsTableRow(line)
    ensures ScanState(blocks', false, false, tableActive') == StepOutside(ScanState(blocks, false, false, tableActive), line, next)
  {
    ghost var before := ScanState(blocks, false, false, tableActive);
    blocks', tableActive' := blocks, tableActive;
    if IsSeparator(line) {
      // a slide separator outside code and notes produces nothing
    } else if IsHeading(line) {
      blocks' := Push(blocks', Block(Heading, [HeadingText(line)], HeadingLevel(line), None));
    } else if IsImage(Strip(line)) {
      var (alt, path) := ImageParts(Strip(line));
      blocks' := Push(blocks', Block(Image, [alt, path], 0, None));
    } else if IsTableRow(line) {
      assert StepOutside(before, line, next) == TableLine(before, line, next);
      if !tableActive' {
        blocks' := Push(blocks', NewBlock(Table));
        tableActive' := true;
      }
      blocks' := AppendToLast(blocks', line);
      if next.Some? && !IsTableRow(next.value) {
        tableActive' := false;
      }
    } else if IsListLine(line) {
      assert StepOutside(before, line, next) == TextLine(before, List, RStrip(line));
      if !LastIs(blocks', List) {
        blocks' := Push(blocks', NewBlock(List));
      }
      blocks' := AppendToLast(blocks', RStrip(line));
    } else if Strip(line) != "" {
      assert StepOutside(before, line, next) == TextLine(before, Para, RStrip(line));
      if !LastIs(blocks', Para) {
        blocks' := Push(blocks', NewBlock(Para));
      }
      blocks' := AppendToLast(blocks', RStrip(line));
    } else if LastIs(blocks', Para) {
      blocks' := AppendToLast(blocks', "");
    }
  }
}
