# md_to_pptx in Dafny

A model of the core of `tools/md_to_pptx.py`, the converter that turns a
Markdown slide deck into a PowerPoint presentation. The model covers the
whole path from the document's lines to the list of slides:

- **Parsing** (`parse_markdown`). One pass over the lines turns them into
  blocks: headings, lists, paragraphs, fenced code, images, tables and
  speaker notes. The pass carries the flags `in_code`, `in_notes` and
  `table_active`. Module `Parser` holds the pass as a function of each line
  and the source's loop as a method proved equal to it. Module
  `ParserProperties` proves what the pass makes of each kind of line run.
- **Line classification**. The four regular expressions `HEADING_RE`,
  `LIST_RE`, `IMG_RE` and `TABLE_ROW_RE` and the literal marker tests are
  written out in module `Patterns`, as predicates and functions for their
  capture groups. Module `Text` holds the string operations they use:
  `strip`, `rstrip`, `split`, `join`, `lower` and `startswith`.
- **Block helpers** (`normalize_bullets`, `parse_table_lines`,
  `to_abs_path`). Module `Transforms` gives each list helper twice: as a
  function stating the result, and as the source's accumulating loop
  proved to compute it.
- **Slide mapping** (the loop of `generate_pptx`). The loop keeps
  `title_done`, `current_section`, `pending_bullets`, `pending_notes` and
  `last_slide`, and adds slides.
  - Module `Mapper` states one pass of the loop body (`MapBlock`) and the
    whole run with its final flush (`Convert`).
  - Its class `Deck` holds the loop's variables; its methods are the loop
    body and the closures `flush_bullets` and `_maybe_apply_notes`.
  - `GenerateSlides` runs parse and loop together.
  - Module `MapperProperties` proves what the presentation then holds:
    - one title slide, from the first level-1 heading;
    - every bullet, in document order;
    - code, image and table blocks flush the pending bullets before their
      own slide;
    - an empty table makes no slide;
    - where speaker notes land;
    - slides already made change at most in their notes.

A slide is modelled as its title, what it shows (title only, bullets, code
text, a picture path or table rows) and its notes. The Mermaid renderer
`render_mermaid_to_png` is a parameter `render`: a function from the diagram
source to the path of a PNG, or nothing.

A level-1 heading after the title slide changes nothing, not even the
current section: `tools/md_to_pptx.py:429-440` sends it to the `else: pass`
branch (`MapperProperties.IgnoredHeading`).

## Model

| member | source | states |
|---|---|---|
| Text.LStrip | tools/md_to_pptx.py:62 | the first half of `strip()`: the result is a suffix of the input, everything cut off is whitespace, and it does not start with whitespace |
| Text.RStrip | tools/md_to_pptx.py:132 | the result is a prefix of the input, everything cut off is whitespace, and it does not end with whitespace |
| Text.Strip | tools/md_to_pptx.py:62 | the result has no whitespace at either end |
| Text.StripIsLStripRStrip | tools/md_to_pptx.py:62 | `strip()` is `lstrip()` then `rstrip()`: exactly the leading and the trailing whitespace is cut off, and the rest is kept |
| Text.TrailingSpace | tools/md_to_pptx.py:62 | on a string with no leading whitespace, a trailing whitespace character is cut off by `strip()` as by `rstrip()` |
| Text.StripEmpty | tools/md_to_pptx.py:137 | a line strips to the empty string exactly when it is all whitespace (`if line.strip()`) |
| Text.StripKeepsFirst | tools/md_to_pptx.py:62 | a line that does not start with whitespace keeps its first character when stripped |
| Text.StripFirst | tools/md_to_pptx.py:62 | the first character of a non-empty stripped line is whitespace or that line's first character |
| Text.LeadingRun | tools/md_to_pptx.py:35 | the run of `c` at the start is maximal: all of it is `c`, and the next character is not |
| Text.TrailingRun | tools/md_to_pptx.py:80 | the run of `c` at the end is maximal |
| Text.StripChar | tools/md_to_pptx.py:80 | `str.strip("`")`: the result neither starts nor ends with the character, and it is the input without its leading and trailing runs |
| Text.Split | tools/md_to_pptx.py:372 | `split("\|")` gives one more piece than there are separators, and no piece holds the separator |
| Text.JoinSplit | tools/md_to_pptx.py:372 | joining the pieces of a split with the separator gives the string back |
| Text.SplitJoin | tools/md_to_pptx.py:372 | splitting a join of separator-free pieces gives the pieces back |
| Text.SplitNoSep | tools/md_to_pptx.py:372 | a string without the separator splits into itself alone |
| Text.SplitPrefix | tools/md_to_pptx.py:372 | splitting `p + sep + t` gives `p` followed by the pieces of `t` |
| Text.LowerChar | tools/md_to_pptx.py:455 | an upper-case ASCII letter goes to the same letter in lower case (its code plus 32); every other character is unchanged |
| Text.Lower | tools/md_to_pptx.py:455 | `lower()` keeps the length and lower-cases each character by `LowerChar` |
| Text.Or | tools/md_to_pptx.py:474 | Python's `a or b` on strings: `a` when it is non-empty, otherwise `b`; empty only when both are |
| Patterns.IsNotesStart | tools/md_to_pptx.py:62 | the stripped line starts with `<!-- SPEAKER_NOTES_START` |
| Patterns.IsNotesEnd | tools/md_to_pptx.py:68 | the stripped line ends with `SPEAKER_NOTES_END -->` |
| Patterns.IsFence | tools/md_to_pptx.py:76 | the stripped line starts with three backticks |
| Patterns.FenceLang | tools/md_to_pptx.py:80 | the language of an opening fence: the stripped line with every backtick at either end removed |
| Patterns.IsSeparator | tools/md_to_pptx.py:93 | the stripped line is exactly `---` |
| Patterns.IsHeading | tools/md_to_pptx.py:35 | `HEADING_RE.match(line)` on the raw line (used at line 98): the leading run of `#` is 1 to 6 long and whitespace follows it |
| Patterns.IsListItem | tools/md_to_pptx.py:36 | `LIST_RE.match`: a marker (`*`, `-`, `+`, or ASCII digits and a dot) followed by whitespace |
| Patterns.IsListLine | tools/md_to_pptx.py:128 | `LIST_RE.match(line.strip())`: the stripped line is a list item |
| Patterns.IsImage | tools/md_to_pptx.py:37 | `IMG_RE.match` on the stripped line (used at line 107): it starts with `![`, a `](` follows, and a `)` follows that |
| Patterns.IsTableRow | tools/md_to_pptx.py:38 | `TABLE_ROW_RE.match(line)` on the raw line (used at line 115): it starts with `\|` and, once right-stripped, is at least three characters long and ends with `\|` |
| Patterns.LeadingDigits | tools/md_to_pptx.py:36 | the run of digits at the start of an item is maximal |
| Patterns.HeadingLevel | tools/md_to_pptx.py:35 | `len(group(1))` is between 1 and 6, the line starts with that many `#`, and whitespace follows them |
| Patterns.HeadingText | tools/md_to_pptx.py:101 | the heading text is stripped |
| Patterns.ListMarkerLength | tools/md_to_pptx.py:36 | the marker is `*`, `-`, `+`, or digits ending in `.` |
| Patterns.ListItemText | tools/md_to_pptx.py:361 | the item text is stripped, and non-empty for a stripped line |
| Patterns.IndexOf | tools/md_to_pptx.py:37 | the lazy group ends at the first occurrence: the found index is an occurrence, none comes before it, and "nothing" means no occurrence at all |
| Patterns.ImageParts | tools/md_to_pptx.py:37 | the alt text runs from after `![` to the first `](`, and the path runs from there to the first `)`, which it does not contain |
| Patterns.TableRowBody | tools/md_to_pptx.py:38 | the line is `\|`, the non-empty body, `\|`, then whitespace only |
| Patterns.FenceFirstChar | tools/md_to_pptx.py:76 | a trimmed fence starts with a backtick |
| Patterns.NotesStartFirstChar | tools/md_to_pptx.py:62 | a trimmed notes start marker starts with `<` |
| Patterns.ImageFirstChar | tools/md_to_pptx.py:107 | a trimmed image reference starts with `!` |
| Patterns.FirstCharRulesOut | tools/md_to_pptx.py:62-115 | the first character of the trimmed line rules out the notes, fence, separator and table tests |
| Patterns.TableRowIsNothingElse | tools/md_to_pptx.py:62-115 | a table row passes none of the notes, fence, separator, heading and image tests that come before the table test |
| Patterns.ActiveRowIsNothingElse | tools/md_to_pptx.py:62-115 | the same, for a line that is a row whenever the table is active |
| Patterns.HeadingIsNothingEarlier | tools/md_to_pptx.py:62-98 | a heading is no notes marker, fence, separator or table row |
| Patterns.ImageIsNothingEarlier | tools/md_to_pptx.py:62-115 | an image line is no notes marker, fence, separator or table row |
| Patterns.SeparatorIsNothingEarlier | tools/md_to_pptx.py:62-115 | `---` is no notes marker, fence or table row |
| Patterns.NotesStartIsNotTableRow | tools/md_to_pptx.py:62 | a notes start marker is no table row |
| Patterns.FenceIsNothingEarlier | tools/md_to_pptx.py:62-93 | a fence is no notes marker, separator or table row |
| Patterns.ListLineFirstChar | tools/md_to_pptx.py:128 | a trimmed list item starts with a marker character or a digit |
| Patterns.ListLineIsNothingElse | tools/md_to_pptx.py:62-128 | a list line passes no test the scan makes before the list test |
| Patterns.ListLineIsNoImageOrRule | tools/md_to_pptx.py:93-107 | a list line is neither an image reference nor `---` |
| Patterns.ListLineIsNoHeading | tools/md_to_pptx.py:98 | a list line is not a heading |
| Parser.Push | tools/md_to_pptx.py:81 | `blocks.append(b)` keeps the old blocks and adds `b` last |
| Parser.AppendToLast | tools/md_to_pptx.py:71 | `blocks[-1].content.append(line)` changes only the last block's content, by adding the line |
| Parser.AppendToLastOf | tools/md_to_pptx.py:132 | adding to the last of `bs + [b]` grows `b` only |
| Parser.AppendToFresh | tools/md_to_pptx.py:130-132 | opening a block and adding a line gives a block of just that line |
| Parser.Step | tools/md_to_pptx.py:58-146 | one pass of the loop only appends or grows blocks; `table_active` is set only on a row followed by a row or by the end |
| Parser.OpenNotes | tools/md_to_pptx.py:62-66 | a start marker opens notes and clears the table flag |
| Parser.NotesLine | tools/md_to_pptx.py:67-73 | inside notes no code is open and no table is active |
| Parser.FenceLine | tools/md_to_pptx.py:76-85 | a fence toggles code and leaves notes and table off |
| Parser.CodeLine | tools/md_to_pptx.py:87-90 | inside code the flags stay as they are |
| Parser.StepOutside | tools/md_to_pptx.py:92-146 | the outside part of the loop keeps the table-flag invariant |
| Parser.HeadingLine | tools/md_to_pptx.py:97-104 | a heading clears every flag and only appends |
| Parser.ImageLine | tools/md_to_pptx.py:106-112 | an image clears every flag and only appends |
| Parser.TableLine | tools/md_to_pptx.py:114-125 | after a row the table stays active exactly when the next line is a row or there is none |
| Parser.StepText | tools/md_to_pptx.py:127-146 | list, paragraph and blank lines clear the flags and only append or grow |
| Parser.TextLine | tools/md_to_pptx.py:128-140 | a list or paragraph line keeps the flags clear |
| Parser.ScanPrefix | tools/md_to_pptx.py:58-146 | after `k` lines, an active table means line `k-1` was a row and line `k`, if any, is one |
| Parser.Parse | tools/md_to_pptx.py:49-148 | every block returned is well formed: a heading has a level in 1..6 and one text, an image has alt and path, and only code has a language |
| Parser.StepWellFormed | tools/md_to_pptx.py:58-146 | one step keeps every block well formed |
| Parser.StepOutsideWellFormed | tools/md_to_pptx.py:92-146 | the outside part keeps every block well formed |
| Parser.TableLineWellFormed | tools/md_to_pptx.py:114-125 | a table line keeps every block well formed |
| Parser.StepTextWellFormed | tools/md_to_pptx.py:127-146 | a text line keeps every block well formed |
| Parser.TextLineWellFormed | tools/md_to_pptx.py:128-140 | appending text never touches a heading or image block |
| Parser.ScanWellFormed | tools/md_to_pptx.py:49-148 | every prefix of the scan has only well-formed blocks |
| Parser.ParseMarkdown | tools/md_to_pptx.py:49-148 | the source's while loop returns exactly `Parse(lines)` |
| Parser.ScanLine | tools/md_to_pptx.py:58-146 | the loop body for line `i` moves the scan state from `i` lines to `i + 1` |
| Parser.ScanOutsideLine | tools/md_to_pptx.py:92-146 | the outside part of the body computes `StepOutside` |
| ParserProperties.Next | tools/md_to_pptx.py:58-59 | the state after `k + 1` lines is one step from the state after `k` |
| ParserProperties.InsideCode | tools/md_to_pptx.py:76-90 | after an opening fence, every non-fence line lands verbatim in one code block tagged with the fence's language |
| ParserProperties.OpenCode | tools/md_to_pptx.py:76-81 | an opening fence outside code and notes opens an empty code block with `fence.strip("`")` as its language |
| ParserProperties.CodeStep | tools/md_to_pptx.py:87-90 | inside code a non-fence line is added to the open block |
| ParserProperties.CodeLineAppends | tools/md_to_pptx.py:87-90 | the same, for any last block |
| ParserProperties.CodeFence | tools/md_to_pptx.py:76-90 | a fence pair gives one code block holding exactly the lines between them, verbatim and in order; fence lines are not content; the scan is outside code afterwards |
| ParserProperties.HeadingBlock | tools/md_to_pptx.py:97-104 | a heading line appends one heading block of its level and stripped text |
| ParserProperties.ImageBlock | tools/md_to_pptx.py:106-112 | an image line appends one image block holding alt text and path |
| ParserProperties.SeparatorIsIgnored | tools/md_to_pptx.py:92-95 | `---` outside code and notes changes nothing: no block, no flag |
| ParserProperties.RStripAllSnoc | tools/md_to_pptx.py:132 | right-stripping a list of lines distributes over appending one |
| ParserProperties.ListLine | tools/md_to_pptx.py:127-134 | a list line joins a list block that is last, or opens one |
| ParserProperties.ListLineIsText | tools/md_to_pptx.py:127-134 | a list line is added right-stripped as list text, and no table is active before it |
| ParserProperties.ListRun | tools/md_to_pptx.py:127-134 | a run of list lines becomes exactly one list block of the right-stripped lines, in order |
| ParserProperties.OpenList | tools/md_to_pptx.py:130-132 | a list line not after a list block opens a block holding it |
| ParserProperties.ListLineAppends | tools/md_to_pptx.py:130-132 | a list line after a list block grows it by the right-stripped line |
| ParserProperties.TableRun | tools/md_to_pptx.py:114-125 | a maximal run of rows becomes one table block holding the rows verbatim, and a following non-row ends the table |
| ParserProperties.TableRunSpan | tools/md_to_pptx.py:114-125 | the same, with the rows collected one at a time |
| ParserProperties.RowStep | tools/md_to_pptx.py:120-125 | inside a run, a row joins the table block |
| ParserProperties.OpenTable | tools/md_to_pptx.py:115-119 | a row not after a row opens a table block holding it |
| ParserProperties.TableLineAppends | tools/md_to_pptx.py:120-124 | while the table is active a row is added verbatim, and the table stays active exactly when another row follows |
| ParserProperties.InsideNotes | tools/md_to_pptx.py:61-73 | after a start marker, every line that is not a marker lands verbatim in one notes block; the marker line is not content |
| ParserProperties.OpenNotesBlock | tools/md_to_pptx.py:62-66 | a start marker outside code opens an empty notes block, whatever else the line holds |
| ParserProperties.NotesLineAppends | tools/md_to_pptx.py:67-73 | inside notes a non-marker line is added verbatim |
| ParserProperties.NotesBlock | tools/md_to_pptx.py:61-73 | a start marker and the first end marker give one notes block of the lines between; the scan is outside notes afterwards |
| ParserProperties.NotesRestart | tools/md_to_pptx.py:62-66 | a start marker met inside notes opens a fresh notes block |
| Transforms.IsSeparatorRow | tools/md_to_pptx.py:374 | `all(set(c) <= set("-: ") for c in cells)`: every character of every cell is `-`, `:` or a space |
| Transforms.IsUrl | tools/md_to_pptx.py:381 | `re.match(r"^https?://", path)`: the path starts with `http://` or `https://` |
| Transforms.Kept | tools/md_to_pptx.py:358-361 | the positions a filtering loop keeps: in range, accepted, strictly increasing, and every accepted position is among them |
| Transforms.Bullets | tools/md_to_pptx.py:355-362 | `normalize_bullets` gives no more bullets than lines, and every bullet is stripped |
| Transforms.BulletsAreKeptItems | tools/md_to_pptx.py:355-362 | the bullets are exactly the item texts of the list lines, one per list line, in line order |
| Transforms.AllListLinesKept | tools/md_to_pptx.py:355-362 | when every line is an item, none is dropped |
| Transforms.NormalizeBullets | tools/md_to_pptx.py:355-362 | the source's loop computes `Bullets` |
| Transforms.StripAll | tools/md_to_pptx.py:372 | `[c.strip() for c in parts]` strips each part and keeps the count |
| Transforms.Cells | tools/md_to_pptx.py:371-372 | a row has one cell more than its body has `\|`, and every cell is stripped |
| Transforms.Rows | tools/md_to_pptx.py:365-377 | `parse_table_lines` gives no more rows than lines |
| Transforms.RowsClean | tools/md_to_pptx.py:373-376 | no separator row is returned, and every cell is stripped |
| Transforms.RowsAreKeptCells | tools/md_to_pptx.py:365-377 | the rows are exactly the cells of the lines that match the row pattern and are not separator rows, one per line, in order |
| Transforms.RowWidths | tools/md_to_pptx.py:371-372 | each row has one cell more than the `\|` in its line's body |
| Transforms.NonRowsSkipped | tools/md_to_pptx.py:368-370 | lines that do not match the row pattern give no rows |
| Transforms.StripStripped | tools/md_to_pptx.py:372 | stripping a stripped cell changes nothing |
| Transforms.CellsRestoreBody | tools/md_to_pptx.py:371-372 | when no piece has whitespace at its ends, joining the cells with `\|` gives the row body back |
| Transforms.ParseTableLines | tools/md_to_pptx.py:365-377 | the source's loop, with its two `continue`s, computes `Rows` |
| Transforms.DropDotSlash | tools/md_to_pptx.py:384 | one leading `./` is removed; a path without it is unchanged |
| Transforms.JoinPath | tools/md_to_pptx.py:385 | POSIX `os.path.join` of two parts: the result ends with the path; an absolute path replaces the base; otherwise the result starts with the base |
| Transforms.ToAbsPath | tools/md_to_pptx.py:380-385 | a URL comes back unchanged; any other path ends the result without its `./` |
| Transforms.RelativePathUnderBase | tools/md_to_pptx.py:383-385 | a relative path gives the base directory, a `/` when needed, then the path without `./` |
| Transforms.ToAbsPathIdempotent | tools/md_to_pptx.py:380-385 | against an absolute directory, resolving the result again changes nothing |
| Mapper.Truthy | tools/md_to_pptx.py:455 | Python's truth value of an optional string, as in `if b.lang` and `if png`: present and non-empty |
| Mapper.ParagraphText | tools/md_to_pptx.py:447 | `" ".join([l for l in b.content if l.strip()])`: the non-blank lines (`NonBlank`, fixed by `NonBlankIsKept`) joined by single spaces |
| Mapper.IsMermaid | tools/md_to_pptx.py:455 | `b.lang and b.lang.lower().startswith("mermaid")`: a language is present, non-empty, and starts with `mermaid` in any case |
| Mapper.CodeOf | tools/md_to_pptx.py:453 | `"\n".join(b.content)`: the code block's lines joined by line feeds |
| Mapper.NotesOf | tools/md_to_pptx.py:488 | `"\n".join(b.content).strip()`: the notes block's lines joined by line feeds, then stripped |
| Mapper.Titled | tools/md_to_pptx.py:458 | `f"{prefix}: {section}" if section else prefix`: the bare prefix without a section, else the prefix, `": "` and the section |
| Mapper.GrowsTransitive | tools/md_to_pptx.py:426-501 | "slides only grow, earlier ones change only in notes" composes over steps |
| Mapper.AddSlide | tools/md_to_pptx.py:412-424 | a builder, then `_maybe_apply_notes`: the new slide goes last with its title and body; truthy pending notes go on it and are used up, other notes stay pending; `last_slide` is the new slide; the other variables stay |
| Mapper.Flush | tools/md_to_pptx.py:405-410 | with bullets pending, one bullets slide under the title is added; nothing is pending afterwards; with none pending, nothing changes |
| Mapper.NonBlank | tools/md_to_pptx.py:447 | the kept paragraph lines are non-blank and no more than the lines |
| Mapper.NonBlankIsKept | tools/md_to_pptx.py:447 | the kept paragraph lines are exactly the lines whose `strip()` is non-empty, unchanged and in document order |
| Mapper.MapBlock | tools/md_to_pptx.py:426-501 | one pass of the loop body keeps `last_slide` on the newest slide, and slides only grow |
| Mapper.MapHeading | tools/md_to_pptx.py:427-440 | a heading keeps `last_slide` on the newest slide, and slides only grow |
| Mapper.MapCode | tools/md_to_pptx.py:451-468 | the same for a code block; `CodeSlideTitle` states the title and content of the slide it adds |
| Mapper.MapImage | tools/md_to_pptx.py:470-476 | the same for an image |
| Mapper.MapTable | tools/md_to_pptx.py:478-484 | the same for a table |
| Mapper.MapNotes | tools/md_to_pptx.py:486-501 | the same for notes |
| Mapper.MapPrefix | tools/md_to_pptx.py:426 | the loop state after any number of blocks is valid |
| Mapper.Deck.constructor | tools/md_to_pptx.py:399-403 | the loop starts with no slides, no title, an empty section, nothing pending and no last slide |
| Mapper.Deck.AppendSlide | tools/md_to_pptx.py:412-424 | a builder plus `_maybe_apply_notes` updates the fields as `AddSlide` states |
| Mapper.Deck.FlushBullets | tools/md_to_pptx.py:405-410 | `flush_bullets` updates the fields as `Flush` states |
| Mapper.Deck.Process | tools/md_to_pptx.py:426-501 | the loop body updates the fields as `MapBlock` states, calling `NormalizeBullets` and `ParseTableLines` |
| Mapper.Deck.ProcessHeading | tools/md_to_pptx.py:427-440 | the heading branch updates the fields as `MapHeading` states |
| Mapper.Deck.ProcessCode | tools/md_to_pptx.py:451-468 | the code branch updates the fields as `MapCode` states |
| Mapper.Deck.ProcessNotes | tools/md_to_pptx.py:486-501 | the notes branch updates the fields as `MapNotes` states |
| Mapper.Convert | tools/md_to_pptx.py:426-504 | the whole slide loop over every block, then the final flush titled by the section or "Contents". `GenerateSlides` is proved equal to it. `ConvertTitle`, `ConvertKeepsEveryBullet` and `LastFlush` state what it holds |
| Mapper.GenerateSlides | tools/md_to_pptx.py:388-504 | parse, the loop over the blocks and the final flush give exactly `Convert(Parse(lines))` |
| MapperProperties.GatherSnoc | tools/md_to_pptx.py:412-424 | a slide added last adds what it shows after everything else |
| MapperProperties.GatherNotes | tools/md_to_pptx.py:494-501 | setting a slide's notes changes no title and no body |
| MapperProperties.AddSlideGather | tools/md_to_pptx.py:412-424 | a new slide adds its title and body after the others |
| MapperProperties.FlushGather | tools/md_to_pptx.py:405-410 | a flush adds a bullets slide of the pending bullets, if any |
| MapperProperties.HeadingGather | tools/md_to_pptx.py:427-440 | a heading adds the title slide (first level-1 heading), or the flush (level 2 or 3), or nothing |
| MapperProperties.NotesGather | tools/md_to_pptx.py:486-501 | notes add no title and no body |
| MapperProperties.ContentGather | tools/md_to_pptx.py:451-484 | a code, image or table block adds the flushed bullets and then its own slide |
| MapperProperties.FirstH1Step | tools/md_to_pptx.py:429 | the first level-1 heading so far only changes while there is none |
| MapperProperties.MapBlockTitles | tools/md_to_pptx.py:427-433 | a block adds a title slide exactly when it is a level-1 heading and no title was made; `title_done` becomes true exactly on a level-1 heading |
| MapperProperties.HeadingTitles | tools/md_to_pptx.py:427-440 | a heading adds a title slide, with its text, exactly when it is the first level-1 heading; `title_done` becomes true on any level-1 heading |
| MapperProperties.TextTitles | tools/md_to_pptx.py:442-449 | a list or a paragraph, and likewise speaker notes (lines 486-501), add no title slide and leave `title_done` alone |
| MapperProperties.ContentTitles | tools/md_to_pptx.py:451-484 | code, image and table blocks add no title slide and leave `title_done` alone |
| MapperProperties.TitleFromFirstH1 | tools/md_to_pptx.py:429-433 | after any number of blocks, the title is done exactly when a level-1 heading was met, and the only title slide carries the first one's text |
| MapperProperties.ConvertTitle | tools/md_to_pptx.py:426-504 | the finished presentation has one title slide, from the first level-1 heading, or none |
| MapperProperties.FlushTitles | tools/md_to_pptx.py:504 | a flush adds no title slide |
| MapperProperties.FirstH1SetsSection | tools/md_to_pptx.py:429-433 | the first level-1 heading adds a title-only slide with its text after the earlier slides, sets `title_done`, makes its text the current section and leaves the bullets pending |
| MapperProperties.IgnoredHeading | tools/md_to_pptx.py:438-440 | a level-1 heading after the title, and any heading of level 4 to 6, change nothing, not even the section |
| MapperProperties.SectionHeading | tools/md_to_pptx.py:434-437 | a level-2 or level-3 heading flushes the bullets under the old section, keeps every slide, and names the new section |
| MapperProperties.OwnSlide | tools/md_to_pptx.py:451-484 | a code, image or table block makes at most one slide of its own; it is never a title or bullets slide; only a table can make none |
| MapperProperties.ContentShape | tools/md_to_pptx.py:451-484 | a code, image or table block is a flush followed by its own slide |
| MapperProperties.Finish | tools/md_to_pptx.py:459-484 | adding the block's own slide changes neither the pending bullets, the title flag nor the section |
| MapperProperties.FinishGather | tools/md_to_pptx.py:459-484 | adding the block's own slide adds what it shows last |
| MapperProperties.ContentBlockFlushesFirst | tools/md_to_pptx.py:451-484 | code, image and table blocks flush first: the pending bullets become a slide under the section before the block's own slide; nothing stays pending; earlier slides stay |
| MapperProperties.CodeSlideTitle | tools/md_to_pptx.py:451-468 | the code block's slide: a rendered Mermaid diagram shows the picture under "Diagram"; a Mermaid block that renders to nothing shows its source under "Mermaid (code)"; any other block shows its code under "Code"; each title gets ": " and the section when there is one |
| MapperProperties.LowerIdempotent | tools/md_to_pptx.py:455 | lower-casing an already lower-cased string changes nothing |
| MapperProperties.MermaidIgnoresCase | tools/md_to_pptx.py:455 | a language tag asks for a diagram exactly when its lower-cased form does |
| MapperProperties.MermaidExamples | tools/md_to_pptx.py:455 | `Mermaid` and `MERMAID flowchart` ask for a diagram; an empty or missing language and `flowchart` do not |
| MapperProperties.ImageSlideTitle | tools/md_to_pptx.py:470-476 | the image slide is titled by the alt text, else the current section, else "Image", and shows the path resolved by `to_abs_path` |
| MapperProperties.TableSlideTitle | tools/md_to_pptx.py:478-484 | a table with rows left makes a slide titled by the current section, else "Table", showing those rows |
| MapperProperties.EmptyTableNoSlide | tools/md_to_pptx.py:478-484 | a table with no rows left after filtering only flushes |
| MapperProperties.BlockBulletsStep | tools/md_to_pptx.py:442-449 | the bullets of `n + 1` blocks are those of `n` blocks followed by the next block's |
| MapperProperties.MapBlockBullets | tools/md_to_pptx.py:442-484 | one block loses no bullet: bullets on slides followed by those pending grow by exactly the block's list items or paragraph text |
| MapperProperties.HeadingBullets | tools/md_to_pptx.py:427-440 | a heading moves pending bullets to a slide or leaves them, losing none |
| MapperProperties.NotesBullets | tools/md_to_pptx.py:486-501 | notes leave the bullets alone |
| MapperProperties.TextBullets | tools/md_to_pptx.py:442-449 | a list adds its normalized items to the pending bullets, and a non-empty paragraph adds its joined text; no slide is made |
| MapperProperties.ContentBullets | tools/md_to_pptx.py:451-484 | a code, image or table block moves all pending bullets onto a slide and adds none |
| MapperProperties.BulletsConserved | tools/md_to_pptx.py:426-501 | after any number of blocks, the bullets on slides followed by those pending are all the bullets of those blocks, in order |
| MapperProperties.ConvertKeepsEveryBullet | tools/md_to_pptx.py:503-504 | the finished presentation's bullets slides hold every list item and paragraph of the document, in order |
| MapperProperties.LastFlush | tools/md_to_pptx.py:503-504 | the bullets left at the end go on one last slide, titled by the section or "Contents"; with none left nothing is added |
| MapperProperties.NotesWaitForNextSlide | tools/md_to_pptx.py:489-493 | notes met while bullets are pending, or before any slide, wait for the next slide; no slide changes |
| MapperProperties.WaitingNotesGoOnNextSlide | tools/md_to_pptx.py:412-423 | the next slide carries non-empty waiting notes, which are then used up |
| MapperProperties.NotesOnNewestSlide | tools/md_to_pptx.py:494-501 | with a slide made and no bullets pending, notes replace the newest slide's notes at once; all else stays |
| MapperProperties.SlidesOnlyGrow | tools/md_to_pptx.py:426-501 | over any stretch of blocks, slides are only added at the end, and earlier slides change at most in their notes |
| MapperProperties.PrefixStep | tools/md_to_pptx.py:426 | the state after `n + 1` blocks is one loop pass from the state after `n` |

## Left out

- `app/app.py`, the tests and the rest of the repository are not part of this model.
- The slide builders `add_title_slide`, `add_bullets_slide`, `add_code_slide`, `add_image_slide` and `add_table_slide`: fonts, colours, sizes, auto-fit and layout are not modelled. A slide records only its title, what it shows and its notes. When the image file does not exist, `add_image_slide` (tools/md_to_pptx.py:261, :287) shows the text "Image not found: <path>" instead of a picture; the model checks no file and always records `Picture(path)`.
- Image geometry (reading the picture's size and fitting it to the slide) is floating point and file I/O, so it is left out. An image slide records the resolved path.
- `render_mermaid_to_png` runs an external program and writes a temporary file. It is the parameter `render`, a deterministic function from diagram source to an optional PNG path.
- Reading the Markdown file, creating the output directory, saving the presentation, the slide size and `main`: I/O only.
- `md.splitlines()`: the document is given as its sequence of lines.
- Whitespace is the six ASCII whitespace characters. Python's `str.strip` and regex `\s` also accept other Unicode spaces, and `lower()` folds non-ASCII letters. Neither is modelled.
- The ASCII separators `\x1c` to `\x1f` count as whitespace for `str.strip` and `\s`. The model treats them as ordinary characters.
- Digits in `LIST_RE` are ASCII `0` to `9` only. In Python, `\d` on a `str` pattern also matches other Unicode decimal digits, such as Arabic-Indic digits.
- The `try`/`except` around setting notes: a slide without a notes frame cannot be expressed here, so setting notes always succeeds.
- `Transforms.Bullets`: there is no lemma for appending two line lists, that is, normalizing a concatenation as the concatenation of the normalized parts.
