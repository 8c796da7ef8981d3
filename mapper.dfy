/**
  The block-to-slide loop of `generate_pptx`: it walks the parsed blocks once,
  keeping `title_done`, `current_section`, `pending_bullets`, `pending_notes`
  and `last_slide`, and adds slides to the presentation. The presentation is
  the sequence of slides added; each slide records its title, what it shows
  and the speaker notes set on it.

  `MapBlock` states one pass of the loop body and `Convert` the whole run
  with the final flush; the class `Deck` holds the loop's variables and its
  methods are the loop body and the two closures, proved to follow
  `MapBlock`; `GenerateSlides` runs parse and loop.
 */
module Mapper {
  import opened Wrappers
  import opened Text
  import opened Parser
  import opened Transforms

  /** What a slide shows under its title: one of the five slide builders of the source. */
  datatype SlideBody =
    | TitleOnly                           // add_title_slide
    | BulletList(items: seq<string>)      // add_bullets_slide
    | CodeText(code: string)              // add_code_slide
    | Picture(path: string)               // add_image_slide
    | TableOf(rows: seq<seq<string>>)     // add_table_slide

  /** A slide: its title, its body and the speaker notes set on it, if any. */
  datatype Slide = Slide(title: string, body: SlideBody, notes: Option<string>)

  /**
    The loop's variables: the slides added so far, `title_done`,
    `current_section`, `pending_bullets`, `pending_notes` and `last_slide`
    (the index of the slide it refers to).
   */
  datatype MapState = MapState(
    slides: seq<Slide>,
    titleDone: bool,
    section: string,
    pending: seq<string>,
    pendingNotes: Option<string>,
    lastSlide: Option<nat>)
  {
    /** Every slide builder is followed by `_maybe_apply_notes`, so `last_slide` is always the newest slide. */
    predicate Valid() {
      lastSlide == if slides == [] then None else Some(|slides| - 1)
    }
  }

  /** The values before the loop. */
  const Initial := MapState([], false, "", [], None, None)

  /** Python's truth value of an optional string: present and not empty. */
  predicate Truthy(s: Option<string>) {
    s.Some? && s.value != ""
  }

  /** `f"{prefix}: {section}" if section else prefix` */
  function Titled(prefix: string, section: string): (t: string)
    ensures section == "" ==> t == prefix
    ensures section != "" ==> t == prefix + ": " + section
  {
    if section != "" then prefix + ": " + section else prefix
  }

  /**
    How the slides may change: slides are only added at the end, and of the
    slides already there only the newest may change, and then only in its notes.
   */
  predicate Grows(before: seq<Slide>, after: seq<Slide>) {
    && |before| <= |after|
    && (forall i | 0 <= i < |before| :: after[i].title == before[i].title && after[i].body == before[i].body)
    && (forall i | 0 <= i < |before| - 1 :: after[i] == before[i])
  }

  lemma GrowsTransitive(a: seq<Slide>, b: seq<Slide>, c: seq<Slide>)
    requires Grows(a, b) && Grows(b, c)
    ensures Grows(a, c)
  {
    forall i | 0 <= i < |a|
      ensures c[i].title == a[i].title && c[i].body == a[i].body
    {
      assert b[i].title == a[i].title && b[i].body == a[i].body;
      assert c[i].title == b[i].title && c[i].body == b[i].body;
    }
    forall i | 0 <= i < |a| - 1
      ensures c[i] == a[i]
    {
      assert b[i] == a[i];
      assert c[i] == b[i];
    }
  }

  /**
    A slide builder followed by `_maybe_apply_notes`: the new slide goes last,
    carries the pending notes if they are non-empty (which are then used up),
    and becomes `last_slide`.
   */
  function AddSlide(st: MapState, title: string, body: SlideBody): (r: MapState)
    requires st.Valid()
    ensures r.Valid() && Grows(st.slides, r.slides)
    ensures |r.slides| == |st.slides| + 1 && r.slides[..|st.slides|] == st.slides
    ensures r.slides[|st.slides|].title == title && r.slides[|st.slides|].body == body
    ensures Truthy(st.pendingNotes) ==> r.slides[|st.slides|].notes == st.pendingNotes && r.pendingNotes == None
    ensures !Truthy(st.pendingNotes) ==> r.slides[|st.slides|].notes == None && r.pendingNotes == st.pendingNotes
    ensures r.titleDone == st.titleDone && r.section == st.section && r.pending == st.pending
  {
    var notes := if Truthy(st.pendingNotes) then st.pendingNotes else None;
    st.(slides := st.slides + [Slide(title, body, notes)],
        pendingNotes := if Truthy(st.pendingNotes) then None else st.pendingNotes,
        lastSlide := Some(|st.slides|))
  }

  /** `flush_bullets(title)`: pending bullets, if any, become one bullets slide under `title`. */
  function Flush(st: MapState, title: string): (r: MapState)
    requires st.Valid()
    ensures r.Valid() && Grows(st.slides, r.slides) && r.pending == []
    ensures r.titleDone == st.titleDone && r.section == st.section
    ensures st.pending == [] ==> r == st
    ensures st.pending != [] ==>
      && |r.slides| == |st.slides| + 1
      && r.slides[|st.slides|].title == title && r.slides[|st.slides|].body == BulletList(st.pending)
  {
    if st.pending != [] then AddSlide(st, title, BulletList(st.pending)).(pending := []) else st
  }

  /** `" ".join([l for l in lines if l.strip()])`: the non-blank lines of a paragraph, joined by spaces. */
  function ParagraphText(lines: seq<string>): string {
    Join(NonBlank(lines), ' ')
  }

  function NonBlank(lines: seq<string>): (r: seq<string>)
    ensures |r| <= |lines|
    ensures forall j | 0 <= j < |r| :: Strip(r[j]) != ""
  {
    if lines == [] then []
    else NonBlank(lines[..|lines| - 1]) + (if Strip(lines[|lines| - 1]) != "" then [lines[|lines| - 1]] else [])
  }

  /** The filter of the paragraph comprehension: `l.strip()` is truthy. */
  predicate NotBlank(line: string) {
    Strip(line) != ""
  }

  /** `NonBlank` keeps exactly the lines the comprehension's filter accepts, in order and unchanged. */
  lemma {:induction false} NonBlankIsKept(lines: seq<string>)
    ensures var idx := Kept(lines, NotBlank);
      && |NonBlank(lines)| == |idx|
      && forall j | 0 <= j < |idx| :: NonBlank(lines)[j] == lines[idx[j]]
  {
    if lines != [] {
      var n := |lines| - 1;
      NonBlankIsKept(lines[..n]);
      var front, idx := Kept(lines[..n], NotBlank), Kept(lines, NotBlank);
      assert idx == front + if NotBlank(lines[n]) then [n] else [];
      var out := NonBlank(lines);
      assert out == NonBlank(lines[..n]) + if NotBlank(lines[n]) then [lines[n]] else [];
      forall j | 0 <= j < |idx|
        ensures out[j] == lines[idx[j]]
      {
        if j < |front| {
          assert lines[..n][front[j]] == lines[front[j]];
        }
      }
    }
  }

  /** A code block's language asks for a Mermaid diagram: it is non-empty and, lower-cased, starts with "mermaid". */
  predicate IsMermaid(lang: Option<string>) {
    Truthy(lang) && StartsWith(Lower(lang.value), "mermaid")
  }

  /** `"\n".join(b.content)` for a code block. */
  function CodeOf(b: Block): string {
    Join(b.content, '\n')
  }

  /** `"\n".join(b.content).strip()` for a notes block. */
  function NotesOf(b: Block): string {
    Strip(Join(b.content, '\n'))
  }

  /**
    One pass of the loop body for block `b`. `render` stands for
    `render_mermaid_to_png`: the path of the PNG it wrote, or nothing.
    `root` is the directory of the Markdown file.
   */
  function MapBlock(st: MapState, b: Block, render: string -> Option<string>, root: string): (r: MapState)
    requires st.Valid() && WellFormed(b)
    ensures r.Valid() && Grows(st.slides, r.slides)
  {
    match b.kind
    case Heading => MapHeading(st, b.level, b.content[0])
    case List => st.(pending := st.pending + Bullets(b.content))
    case Para =>
      var text := ParagraphText(b.content);
      if text != "" then st.(pending := st.pending + [text]) else st
    case Code => MapCode(st, b.lang, CodeOf(b), render)
    case Image => MapImage(st, b.content[0], b.content[1], root)
    case Table => MapTable(st, b.content)
    case Notes => MapNotes(st, NotesOf(b))
  }

  /**
    A heading: the first level-1 heading makes the title slide and names the
    section; a level-2 or level-3 heading flushes the bullets under the
    section so far and names the next one; any other heading does nothing.
   */
  function MapHeading(st: MapState, level: int, text: string): (r: MapState)
    requires st.Valid()
    ensures r.Valid() && Grows(st.slides, r.slides)
  {
    if level == 1 && !st.titleDone then
      AddSlide(st, text, TitleOnly).(titleDone := true, section := text)
    else if level == 2 || level == 3 then
      Flush(st, st.section).(section := text)
    else
      st
  }

  /**
    A code block: the bullets are flushed first; a Mermaid block that renders
    becomes a diagram slide, one that does not a code slide marked as Mermaid,
    any other block a code slide.
   */
  function MapCode(st: MapState, lang: Option<string>, code: string, render: string -> Option<string>): (r: MapState)
    requires st.Valid()
    ensures r.Valid() && Grows(st.slides, r.slides)
  {
    var st1 := Flush(st, st.section);
    if IsMermaid(lang) then
      var png := render(code);
      if Truthy(png) then AddSlide(st1, Titled("Diagram", st.section), Picture(png.value))
      else AddSlide(st1, Titled("Mermaid (code)", st.section), CodeText(code))
    else
      AddSlide(st1, Titled("Code", st.section), CodeText(code))
  }

  /** An image: the bullets are flushed first; the slide is titled by the alt text, else the section, else "Image". */
  function MapImage(st: MapState, alt: string, path: string, root: string): (r: MapState)
    requires st.Valid()
    ensures r.Valid() && Grows(st.slides, r.slides)
  {
    var st1 := Flush(st, st.section);
    AddSlide(st1, Or(alt, Or(st.section, "Image")), Picture(ToAbsPath(root, path)))
  }

  /** A table: the bullets are flushed first; a table slide follows only if some row is left after filtering. */
  function MapTable(st: MapState, lines: seq<string>): (r: MapState)
    requires st.Valid()
    ensures r.Valid() && Grows(st.slides, r.slides)
  {
    var st1 := Flush(st, st.section);
    var rows := Rows(lines);
    if rows != [] then AddSlide(st1, Or(st.section, "Table"), TableOf(rows)) else st1
  }

  /**
    Speaker notes: kept for the next slide while bullets wait for their slide
    or while there is no slide yet; otherwise set on the newest slide.
   */
  function MapNotes(st: MapState, text: string): (r: MapState)
    requires st.Valid()
    ensures r.Valid() && Grows(st.slides, r.slides)
  {
    if st.lastSlide.Some? && st.pending != [] then st.(pendingNotes := Some(text))
    else if st.lastSlide.None? then st.(pendingNotes := Some(text))
    else
      var i := st.lastSlide.value;
      st.(slides := st.slides[i := st.slides[i].(notes := Some(text))])
  }

  /** The loop's variables after the first `k` blocks. */
  function MapPrefix(blocks: seq<Block>, k: nat, render: string -> Option<string>, root: string): (st: MapState)
    requires k <= |blocks| && AllWellFormed(blocks)
    ensures st.Valid()
  {
    if k == 0 then Initial else MapBlock(MapPrefix(blocks, k - 1, render, root), blocks[k - 1], render, root)
  }

  /** The slides of the finished presentation: the loop, then the last flush under the section or "Contents". */
  function Convert(blocks: seq<Block>, render: string -> Option<string>, root: string): (slides: seq<Slide>)
    requires AllWellFormed(blocks)
  {
    var st := MapPrefix(blocks, |blocks|, render, root);
    Flush(st, Or(st.section, "Contents")).slides
  }

  /**
    The loop's variables, as the closures of `generate_pptx` share them.
    Each method is one piece of the loop, proved to do what the function of
    the same role states.
   */
  class Deck {
    var slides: seq<Slide>
    var titleDone: bool
    var currentSection: string
    var pendingBullets: seq<string>
    var pendingNotes: Option<string>
    var lastSlide: Option<nat>

    function State(): MapState
      reads this
    {
      MapState(slides, titleDone, currentSection, pendingBullets, pendingNotes, lastSlide)
    }

    constructor ()
      ensures State() == Initial
    {
      slides, titleDone, currentSection, pendingBullets, pendingNotes, lastSlide := [], false, "", [], None, None;
    }

    /** A slide builder, then `_maybe_apply_notes(slide)`. */
    method AppendSlide(title: string, body: SlideBody)
      requires State().Valid()
      modifies this
      ensures State() == AddSlide(old(State()), title, body)
    {
      var notes := None;
      if Truthy(pendingNotes) {
        notes := pendingNotes;
        pendingNotes := None;
      }
      slides := slides + [Slide(title, body, notes)];
      lastSlide := Some(|slides| - 1);
    }

    /** `flush_bullets(title)` */
    method FlushBullets(title: string)
      requires State().Valid()
      modifies this
      ensures State() == Flush(old(State()), title)
    {
      if pendingBullets != [] {
        AppendSlide(title, BulletList(pendingBullets));
        pendingBullets := [];
      }
    }

    /** One pass of the loop body: the `if b.type == ...` chain. */
    method Process(b: Block, render: string -> Option<string>, root: string)
      requires State().Valid() && WellFormed(b)
      modifies this
      ensures State() == MapBlock(old(State()), b, render, root)
    {
      match b.kind
      case Heading =>
        ProcessHeading(b.level, b.content[0]);
      case List =>
        var bullets := NormalizeBullets(b.content);
        pendingBullets := pendingBullets + bullets;
      case Para =>
        var text := ParagraphText(b.content);
        if text != "" {
          pendingBullets := pendingBullets + [text];
        }
      case Code =>
        ProcessCode(b.lang, CodeOf(b), render);
      case Image =>
        var alt, path := b.content[0], b.content[1];
        FlushBullets(currentSection);
        AppendSlide(Or(alt, Or(currentSection, "Image")), Picture(ToAbsPath(root, path)));
      case Table =>
        FlushBullets(currentSection);
        var rows := ParseTableLines(b.content);
        if rows != [] {
          AppendSlide(Or(currentSection, "Table"), TableOf(rows));
        }
      case Notes =>
        ProcessNotes(NotesOf(b));
    }

    method ProcessHeading(level: int, text: string)
      requires State().Valid()
      modifies this
      ensures State() == MapHeading(old(State()), level, text)
    {
      if level == 1 && !titleDone {
        AppendSlide(text, TitleOnly);
        titleDone := true;
        currentSection := text;
      } else if level == 2 || level == 3 {
        FlushBullets(currentSection);
        currentSection := text;
      }
    }

    method ProcessCode(lang: Option<string>, code: string, render: string -> Option<string>)
      requires State().Valid()
      modifies this
      ensures State() == MapCode(old(State()), lang, code, render)
    {
      FlushBullets(currentSection);
      if IsMermaid(lang) {
        var png := render(code);
        if Truthy(png) {
          AppendSlide(Titled("Diagram", currentSection), Picture(png.value));
        } else {
          AppendSlide(Titled("Mermaid (code)", currentSection), CodeText(code));
        }
      } else {
        AppendSlide(Titled("Code", currentSection), CodeText(code));
      }
    }

    method ProcessNotes(text: string)
      requires State().Valid()
      modifies this
      ensures State() == MapNotes(old(State()), text)
    {
      if lastSlide.Some? && pendingBullets != [] {
        pendingNotes := Some(text);
      } else if lastSlide.None? {
        pendingNotes := Some(text);
      } else {
        var i := lastSlide.value;
        slides := slides[i := slides[i].(notes := Some(text))];
      }
    }
  }

  /**
    `generate_pptx` without the file handling: parse the document's lines,
    run the loop over the blocks, flush what is left under the section or
    "Contents", and give back the slides.
   */
  method GenerateSlides(lines: seq<string>, render: string -> Option<string>, root: string)
    returns (slides: seq<Slide>)
    ensures slides == Convert(Parse(lines), render, root)
  {
    var blocks := ParseMarkdown(lines);
    var deck := new Deck();
    for i := 0 to |blocks|
      invariant deck.State() == MapPrefix(blocks, i, render, root)
    {
      deck.Process(blocks[i], render, root);
    }
    deck.FlushBullets(Or(deck.currentSection, "Contents"));
    slides := deck.slides;
  }
}
