/**
  What the slide loop of `generate_pptx` promises: which headings make the
  title slide, that bullets are never lost or reordered, that code, image and
  table blocks flush the bullets before their own slide, that an empty table
  makes no slide, where speaker notes go, and that slides already made only
  ever change in their notes.
 */
module MapperProperties {
  import opened Wrappers
  import opened Text
  import opened Parser
  import opened Transforms
  import opened Mapper

  // ---------------------------------------------------------------------------
  // Reading the presentation: what the slides show, in order
  // ---------------------------------------------------------------------------

  /** What `pick` finds on each slide (from its title and body; notes do not matter), gathered in slide order. */
  function Gather(slides: seq<Slide>, pick: (string, SlideBody) -> seq<string>): seq<string> {
    if slides == [] then []
    else
      var last := slides[|slides| - 1];
      Gather(slides[..|slides| - 1], pick) + pick(last.title, last.body)
  }

  /** The title of a title slide. */
  function TitleOf(title: string, body: SlideBody): seq<string> {
    if body == TitleOnly then [title] else []
  }

  /** The bullets of a bullets slide. */
  function ItemsOf(title: string, body: SlideBody): seq<string> {
    if body.BulletList? then body.items else []
  }

  lemma GatherSnoc(slides: seq<Slide>, s: Slide, pick: (string, SlideBody) -> seq<string>)
    ensures Gather(slides + [s], pick) == Gather(slides, pick) + pick(s.title, s.body)
  {
    assert (slides + [s])[..|slides|] == slides;
  }

  /** Setting the notes of a slide changes nothing that `Gather` sees. */
  lemma {:induction false} GatherNotes(slides: seq<Slide>, i: nat, notes: Option<string>, pick: (string, SlideBody) -> seq<string>)
    requires i < |slides|
    ensures Gather(slides[i := slides[i].(notes := notes)], pick) == Gather(slides, pick)
  {
    var n := |slides| - 1;
    var t := slides[i := slides[i].(notes := notes)];
    assert t[..n] == if i < n then slides[..n][i := slides[i].(notes := notes)] else slides[..n];
    if i < n {
      GatherNotes(slides[..n], i, notes, pick);
    }
  }

  /** A new slide adds what `pick` finds on it, after everything else. */
  lemma AddSlideGather(st: MapState, title: string, body: SlideBody, pick: (string, SlideBody) -> seq<string>)
    requires st.Valid()
    ensures Gather(AddSlide(st, title, body).slides, pick) == Gather(st.slides, pick) + pick(title, body)
  {
    var r := AddSlide(st, title, body);
    assert r.slides == st.slides + [r.slides[|st.slides|]];
    GatherSnoc(st.slides, r.slides[|st.slides|], pick);
  }

  /** A flush adds what `pick` finds on a bullets slide of the pending bullets, if there are any. */
  lemma FlushGather(st: MapState, title: string, pick: (string, SlideBody) -> seq<string>)
    requires st.Valid()
    ensures Gather(Flush(st, title).slides, pick)
         == Gather(st.slides, pick) + if st.pending != [] then pick(title, BulletList(st.pending)) else []
  {
    if st.pending != [] {
      AddSlideGather(st, title, BulletList(st.pending), pick);
    }
  }

  /** What a heading adds: the title slide of a first level-1 heading, or the flush of a level-2 or level-3 heading. */
  lemma HeadingGather(st: MapState, level: int, text: string, pick: (string, SlideBody) -> seq<string>)
    requires st.Valid()
    ensures Gather(MapHeading(st, level, text).slides, pick)
         == Gather(st.slides, pick) +
            if level == 1 && !st.titleDone then pick(text, TitleOnly)
            else if (level == 2 || level == 3) && st.pending != [] then pick(st.section, BulletList(st.pending))
            else []
  {
    if level == 1 && !st.titleDone {
      AddSlideGather(st, text, TitleOnly, pick);
    } else if level == 2 || level == 3 {
      FlushGather(st, st.section, pick);
    }
  }

  /** Notes change nothing that `Gather` sees. */
  lemma NotesGather(st: MapState, text: string, pick: (string, SlideBody) -> seq<string>)
    requires st.Valid()
    ensures Gather(MapNotes(st, text).slides, pick) == Gather(st.slides, pick)
  {
    if st.lastSlide.Some? && st.pending == [] {
      GatherNotes(st.slides, st.lastSlide.value, Some(text), pick);
    }
  }

  /** What a code, image or table block adds: the flushed bullets, then its own slide. */
  lemma ContentGather(st: MapState, b: Block, render: string -> Option<string>, root: string,
                      pick: (string, SlideBody) -> seq<string>)
    requires st.Valid() && WellFormed(b) && (b.kind == Code || b.kind == Image || b.kind == Table)
    ensures var own := OwnSlide(st, b, render, root);
      Gather(MapBlock(st, b, render, root).slides, pick)
        == Gather(st.slides, pick)
           + (if st.pending != [] then pick(st.section, BulletList(st.pending)) else [])
           + (if own != [] then pick(own[0].0, own[0].1) else [])
  {
    ContentShape(st, b, render, root);
    FlushGather(st, st.section, pick);
    FinishGather(Flush(st, st.section), OwnSlide(st, b, render, root), pick);
  }

  // ---------------------------------------------------------------------------
  // The title slide
  // ---------------------------------------------------------------------------

  /** The text of the first level-1 heading among the first `k` blocks, if there is one. */
  function FirstH1(blocks: seq<Block>, k: nat): Option<string>
    requires k <= |blocks| && AllWellFormed(blocks)
  {
    if k == 0 then None
    else if FirstH1(blocks, k - 1).Some? then FirstH1(blocks, k - 1)
    else if blocks[k - 1].kind == Heading && blocks[k - 1].level == 1 then Some(blocks[k - 1].content[0])
    else None
  }

  lemma FirstH1Step(blocks: seq<Block>, n: nat, m: nat)
    requires m == n + 1 <= |blocks| && AllWellFormed(blocks)
    ensures var b := blocks[n];
      FirstH1(blocks, m) == if FirstH1(blocks, n).Some? then FirstH1(blocks, n)
                            else if b.kind == Heading && b.level == 1 then Some(b.content[0]) else None
  {
  }

  function OptionList(o: Option<string>): seq<string> {
    if o.Some? then [o.value] else []
  }

  /** The title slide a first level-1 heading adds; no other block adds one. */
  lemma MapBlockTitles(st: MapState, b: Block, render: string -> Option<string>, root: string)
    requires st.Valid() && WellFormed(b)
    ensures var r := MapBlock(st, b, render, root);
      var h1 := b.kind == Heading && b.level == 1;
      && r.titleDone == (st.titleDone || h1)
      && Gather(r.slides, TitleOf) == Gather(st.slides, TitleOf) + if h1 && !st.titleDone then [b.content[0]] else []
  {
    if b.kind == Heading {
      HeadingTitles(st, b, render, root);
    } else if b.kind == Code || b.kind == Image || b.kind == Table {
      ContentTitles(st, b, render, root);
    } else {
      TextTitles(st, b, render, root);
    }
  }

  /** A heading adds a title slide exactly when it is the first level-1 heading. */
  lemma HeadingTitles(st: MapState, b: Block, render: string -> Option<string>, root: string)
    requires st.Valid() && WellFormed(b) && b.kind == Heading
    ensures var r := MapBlock(st, b, render, root);
      var h1 := b.level == 1;
      && r.titleDone == (st.titleDone || h1)
      && Gather(r.slides, TitleOf) == Gather(st.slides, TitleOf) + if h1 && !st.titleDone then [b.content[0]] else []
  {
    HeadingGather(st, b.level, b.content[0], TitleOf);
  }

  /** A list, a paragraph or speaker notes add no title slide. */
  lemma TextTitles(st: MapState, b: Block, render: string -> Option<string>, root: string)
    requires st.Valid() && WellFormed(b) && (b.kind == List || b.kind == Para || b.kind == Notes)
    ensures var r := MapBlock(st, b, render, root);
      r.titleDone == st.titleDone && Gather(r.slides, TitleOf) == Gather(st.slides, TitleOf)
  {
    if b.kind == Notes {
      NotesGather(st, NotesOf(b), TitleOf);
    }
  }

  /** A code, image or table block adds no title slide. */
  lemma ContentTitles(st: MapState, b: Block, render: string -> Option<string>, root: string)
    requires st.Valid() && WellFormed(b) && (b.kind == Code || b.kind == Image || b.kind == Table)
    ensures var r := MapBlock(st, b, render, root);
      r.titleDone == st.titleDone && Gather(r.slides, TitleOf) == Gather(st.slides, TitleOf)
  {
    var st1, own := Flush(st, st.section), OwnSlide(st, b, render, root);
    ContentShape(st, b, render, root);
    FlushTitles(st, st.section);
    FinishGather(st1, own, TitleOf);
    assert own != [] ==> TitleOf(own[0].0, own[0].1) == [];
  }

  /**
    Only the first level-1 heading makes a title slide: after any number of
    blocks there is a title slide exactly when a level-1 heading was among
    them, there is only one, and it carries the first such heading's text.
   */
  lemma {:induction false} TitleFromFirstH1(blocks: seq<Block>, k: nat, render: string -> Option<string>, root: string)
    requires k <= |blocks| && AllWellFormed(blocks)
    ensures var st := MapPrefix(blocks, k, render, root);
      && (st.titleDone <==> FirstH1(blocks, k).Some?)
      && Gather(st.slides, TitleOf) == OptionList(FirstH1(blocks, k))
  {
    if k > 0 {
      var n := k - 1;
      TitleFromFirstH1(blocks, n, render, root);
      PrefixStep(blocks, n, k, render, root);
      FirstH1Step(blocks, n, k);
      MapBlockTitles(MapPrefix(blocks, n, render, root), blocks[n], render, root);
    }
  }

  /** The finished presentation has one title slide, titled by the first level-1 heading, or none if there is none. */
  lemma ConvertTitle(blocks: seq<Block>, render: string -> Option<string>, root: string)
    requires AllWellFormed(blocks)
    ensures Gather(Convert(blocks, render, root), TitleOf) == OptionList(FirstH1(blocks, |blocks|))
  {
    var st := MapPrefix(blocks, |blocks|, render, root);
    TitleFromFirstH1(blocks, |blocks|, render, root);
    FlushTitles(st, Or(st.section, "Contents"));
  }

  /** A flush adds no title slide. */
  lemma FlushTitles(st: MapState, title: string)
    requires st.Valid()
    ensures Gather(Flush(st, title).slides, TitleOf) == Gather(st.slides, TitleOf)
  {
    FlushGather(st, title, TitleOf);
  }

  // ---------------------------------------------------------------------------
  // Headings that do and do not act
  // ---------------------------------------------------------------------------

  /** A level-1 heading after the title slide, and any heading of level 4 to 6, change nothing. */
  lemma IgnoredHeading(st: MapState, level: int, text: string)
    requires st.Valid()
    requires (level == 1 && st.titleDone) || 4 <= level <= 6
    ensures MapHeading(st, level, text) == st
  {
  }

  /**
    A level-2 or level-3 heading puts the pending bullets, if any, on one
    slide titled with the section so far, and then names the new section.
   */
  lemma SectionHeading(st: MapState, level: int, text: string)
    requires st.Valid() && (level == 2 || level == 3)
    ensures var r := MapHeading(st, level, text);
      && r.section == text && r.pending == [] && r.titleDone == st.titleDone
      && |r.slides| == |st.slides| + (if st.pending != [] then 1 else 0)
      && r.slides[..|st.slides|] == st.slides
      && (st.pending != [] ==> r.slides[|st.slides|].title == st.section
                               && r.slides[|st.slides|].body == BulletList(st.pending))
  {
  }

  /**
    The first level-1 heading adds the title slide, which gets the speaker
    notes waiting, if any; its text also becomes the current section. The
    pending bullets stay pending.
   */
  lemma FirstH1SetsSection(st: MapState, text: string)
    requires st.Valid() && !st.titleDone
    ensures var r := MapHeading(st, 1, text);
      && r.section == text && r.titleDone && r.pending == st.pending
      && |r.slides| == |st.slides| + 1 && r.slides[..|st.slides|] == st.slides
      && r.slides[|st.slides|].title == text && r.slides[|st.slides|].body == TitleOnly
  {
  }

  // ---------------------------------------------------------------------------
  // Code, image and table blocks
  // ---------------------------------------------------------------------------

  /** The slide a code, image or table block makes of its own, after the flush; a table with no rows makes none. */
  function OwnSlide(st: MapState, b: Block, render: string -> Option<string>, root: string): (own: seq<(string, SlideBody)>)
    requires WellFormed(b) && (b.kind == Code || b.kind == Image || b.kind == Table)
    ensures |own| <= 1
    ensures own != [] ==> !own[0].1.TitleOnly? && !own[0].1.BulletList?
    ensures b.kind != Table ==> |own| == 1
  {
    var sec := st.section;
    match b.kind
    case Code =>
      var code := CodeOf(b);
      if IsMermaid(b.lang) && Truthy(render(code)) then [(Titled("Diagram", sec), Picture(render(code).value))]
      else if IsMermaid(b.lang) then [(Titled("Mermaid (code)", sec), CodeText(code))]
      else [(Titled("Code", sec), CodeText(code))]
    case Image => [(Or(b.content[0], Or(sec, "Image")), Picture(ToAbsPath(root, b.content[1])))]
    case Table => if Rows(b.content) != [] then [(Or(sec, "Table"), TableOf(Rows(b.content)))] else []
  }

  /** A code, image or table block is a flush followed by its own slide, if it has one. */
  lemma ContentShape(st: MapState, b: Block, render: string -> Option<string>, root: string)
    requires st.Valid() && WellFormed(b) && (b.kind == Code || b.kind == Image || b.kind == Table)
    ensures MapBlock(st, b, render, root) == Finish(Flush(st, st.section), OwnSlide(st, b, render, root))
  {
  }

  /** The block's own slide, if it has one, added after the flush. */
  function Finish(st: MapState, own: seq<(string, SlideBody)>): (r: MapState)
    requires st.Valid()
    ensures r.Valid() && r.pending == st.pending && r.titleDone == st.titleDone && r.section == st.section
  {
    if own == [] then st else AddSlide(st, own[0].0, own[0].1)
  }

  lemma FinishGather(st: MapState, own: seq<(string, SlideBody)>, pick: (string, SlideBody) -> seq<string>)
    requires st.Valid()
    ensures Gather(Finish(st, own).slides, pick) == Gather(st.slides, pick) + if own != [] then pick(own[0].0, own[0].1) else []
  {
    if own != [] {
      AddSlideGather(st, own[0].0, own[0].1, pick);
    }
  }

  /**
    Code, image and table blocks flush first: the pending bullets, if any,
    become a slide under the current section, and only after it comes the
    block's own slide; nothing stays pending and the earlier slides stay.
   */
  lemma ContentBlockFlushesFirst(st: MapState, b: Block, render: string -> Option<string>, root: string)
    requires st.Valid() && WellFormed(b) && (b.kind == Code || b.kind == Image || b.kind == Table)
    ensures var r, own := MapBlock(st, b, render, root), OwnSlide(st, b, render, root);
      var flushed := if st.pending != [] then 1 else 0;
      && r.pending == [] && r.section == st.section && r.titleDone == st.titleDone
      && |r.slides| == |st.slides| + flushed + |own|
      && r.slides[..|st.slides|] == st.slides
      && (st.pending != [] ==> r.slides[|st.slides|].title == st.section
                               && r.slides[|st.slides|].body == BulletList(st.pending))
      && (own != [] ==> r.slides[|r.slides| - 1].title == own[0].0 && r.slides[|r.slides| - 1].body == own[0].1)
  {
    var st1 := Flush(st, st.section);
    ContentShape(st, b, render, root);
    assert st1.slides[..|st.slides|] == st.slides;
  }

  /** A table whose lines leave no row after filtering makes no slide of its own; it only flushes. */
  lemma EmptyTableNoSlide(st: MapState, lines: seq<string>)
    requires st.Valid() && Rows(lines) == []
    ensures MapTable(st, lines) == Flush(st, st.section)
  {
  }

  /**
    A code block makes one slide after the flush. A Mermaid block whose
    diagram renders shows the picture under "Diagram"; one whose rendering
    gives nothing shows its source under "Mermaid (code)"; any other block
    shows its code under "Code". Each title is followed by ": " and the
    current section when there is one.
   */
  lemma CodeSlideTitle(st: MapState, lang: Option<string>, code: string, render: string -> Option<string>)
    requires st.Valid()
    ensures var r, sec := MapCode(st, lang, code, render), st.section;
      var last := r.slides[|r.slides| - 1];
      && (IsMermaid(lang) && Truthy(render(code)) ==>
            last.title == (if sec != "" then "Diagram: " + sec else "Diagram") && last.body == Picture(render(code).value))
      && (IsMermaid(lang) && !Truthy(render(code)) ==>
            last.title == (if sec != "" then "Mermaid (code): " + sec else "Mermaid (code)") && last.body == CodeText(code))
      && (!IsMermaid(lang) ==>
            last.title == (if sec != "" then "Code: " + sec else "Code") && last.body == CodeText(code))
  {
  }

  /** Lower-casing twice is lower-casing once. */
  lemma LowerIdempotent(s: string)
    ensures Lower(Lower(s)) == Lower(s)
  {
    assert forall i | 0 <= i < |s| :: LowerChar(LowerChar(s[i])) == LowerChar(s[i]);
  }

  /** The Mermaid test ignores case: a language tag and its lower-cased form ask for a diagram alike. */
  lemma MermaidIgnoresCase(tag: string)
    ensures IsMermaid(Some(tag)) <==> IsMermaid(Some(Lower(tag)))
  {
    LowerIdempotent(tag);
  }

  /** "Mermaid" and "MERMAID flowchart" ask for a diagram; an empty or missing language does not, nor does "flowchart". */
  lemma MermaidExamples()
    ensures IsMermaid(Some("Mermaid")) && IsMermaid(Some("MERMAID flowchart"))
    ensures !IsMermaid(Some("")) && !IsMermaid(None) && !IsMermaid(Some("flowchart"))
  {
    assert Lower("Mermaid")[..7] == "mermaid";
    assert Lower("MERMAID flowchart")[..7] == "mermaid";
    assert Lower("flowchart")[..7] != "mermaid" by {
      assert Lower("flowchart")[0] == 'f';
    }
  }

  /**
    An image slide is titled by the alt text, or else by the current
    section, or else "Image"; it shows the image path resolved against the
    document's folder.
   */
  lemma ImageSlideTitle(st: MapState, alt: string, path: string, root: string)
    requires st.Valid()
    ensures var r := MapImage(st, alt, path, root);
      && r.slides[|r.slides| - 1].title == (if alt != "" then alt else if st.section != "" then st.section else "Image")
      && r.slides[|r.slides| - 1].body == Picture(ToAbsPath(root, path))
  {
  }

  /** A table slide is titled by the current section, or else "Table", and shows the filtered rows. */
  lemma TableSlideTitle(st: MapState, lines: seq<string>)
    requires st.Valid() && Rows(lines) != []
    ensures var r := MapTable(st, lines);
      && r.slides[|r.slides| - 1].title == (if st.section != "" then st.section else "Table")
      && r.slides[|r.slides| - 1].body == TableOf(Rows(lines))
  {
  }

  // ---------------------------------------------------------------------------
  // Bullets: none is lost, none is reordered
  // ---------------------------------------------------------------------------

  /** The bullets a block contributes: the list items of a list, the joined text of a non-empty paragraph. */
  function Contribution(b: Block): seq<string> {
    match b.kind
    case List => Bullets(b.content)
    case Para => if ParagraphText(b.content) != "" then [ParagraphText(b.content)] else []
    case _ => []
  }

  /** The bullets the first `k` blocks contribute, in order. */
  function BlockBullets(blocks: seq<Block>, k: nat): seq<string>
    requires k <= |blocks|
  {
    if k == 0 then [] else BlockBullets(blocks, k - 1) + Contribution(blocks[k - 1])
  }

  lemma BlockBulletsStep(blocks: seq<Block>, n: nat, m: nat)
    requires m == n + 1 <= |blocks|
    ensures BlockBullets(blocks, m) == BlockBullets(blocks, n) + Contribution(blocks[n])
  {
  }

  /** One block moves bullets from pending onto slides, or adds its own to pending, and loses none. */
  predicate KeepsBullets(st: MapState, b: Block, render: string -> Option<string>, root: string)
    requires st.Valid() && WellFormed(b)
  {
    var r := MapBlock(st, b, render, root);
    Gather(r.slides, ItemsOf) + r.pending == Gather(st.slides, ItemsOf) + st.pending + Contribution(b)
  }

  lemma MapBlockBullets(st: MapState, b: Block, render: string -> Option<string>, root: string)
    requires st.Valid() && WellFormed(b)
    ensures var r := MapBlock(st, b, render, root);
      Gather(r.slides, ItemsOf) + r.pending == Gather(st.slides, ItemsOf) + st.pending + Contribution(b)
  {
    if b.kind == Heading {
      HeadingBullets(st, b, render, root);
    } else if b.kind == Code || b.kind == Image || b.kind == Table {
      ContentBullets(st, b, render, root);
    } else if b.kind == Notes {
      NotesBullets(st, b, render, root);
    } else {
      TextBullets(st, b, render, root);
    }
    assert KeepsBullets(st, b, render, root);
  }

  /** A heading either leaves the bullets alone or moves all pending ones onto a slide. */
  lemma HeadingBullets(st: MapState, b: Block, render: string -> Option<string>, root: string)
    requires st.Valid() && WellFormed(b) && b.kind == Heading
    ensures KeepsBullets(st, b, render, root)
  {
    HeadingGather(st, b.level, b.content[0], ItemsOf);
    assert Contribution(b) == [];
  }

  /** Notes leave the bullets alone. */
  lemma NotesBullets(st: MapState, b: Block, render: string -> Option<string>, root: string)
    requires st.Valid() && WellFormed(b) && b.kind == Notes
    ensures KeepsBullets(st, b, render, root)
  {
    NotesGather(st, NotesOf(b), ItemsOf);
    assert Contribution(b) == [];
  }

  /** A list or paragraph adds its bullets to the pending ones and makes no slide. */
  lemma TextBullets(st: MapState, b: Block, render: string -> Option<string>, root: string)
    requires st.Valid() && WellFormed(b) && (b.kind == List || b.kind == Para)
    ensures KeepsBullets(st, b, render, root)
  {
    var r := MapBlock(st, b, render, root);
    assert r.slides == st.slides && r.pending == st.pending + Contribution(b);
  }

  /** A code, image or table block moves all pending bullets onto a slide and adds none of its own. */
  lemma ContentBullets(st: MapState, b: Block, render: string -> Option<string>, root: string)
    requires st.Valid() && WellFormed(b) && (b.kind == Code || b.kind == Image || b.kind == Table)
    ensures KeepsBullets(st, b, render, root)
  {
    var st1, own := Flush(st, st.section), OwnSlide(st, b, render, root);
    ContentShape(st, b, render, root);
    FlushGather(st, st.section, ItemsOf);
    FinishGather(st1, own, ItemsOf);
    assert own != [] ==> ItemsOf(own[0].0, own[0].1) == [];
    assert Contribution(b) == [];
  }

  /** After any number of blocks, the bullets on slides followed by those pending are all the bullets contributed, in order. */
  lemma {:induction false} BulletsConserved(blocks: seq<Block>, k: nat, render: string -> Option<string>, root: string)
    requires k <= |blocks| && AllWellFormed(blocks)
    ensures var st := MapPrefix(blocks, k, render, root);
      Gather(st.slides, ItemsOf) + st.pending == BlockBullets(blocks, k)
  {
    if k > 0 {
      var n := k - 1;
      BulletsConserved(blocks, n, render, root);
      PrefixStep(blocks, n, k, render, root);
      MapBlockBullets(MapPrefix(blocks, n, render, root), blocks[n], render, root);
      BlockBulletsStep(blocks, n, k);
    }
  }

  /**
    The final flush under the section or "Contents" leaves nothing behind:
    the bullets slides of the finished presentation hold every list item and
    paragraph of the document, in document order.
   */
  lemma ConvertKeepsEveryBullet(blocks: seq<Block>, render: string -> Option<string>, root: string)
    requires AllWellFormed(blocks)
    ensures Gather(Convert(blocks, render, root), ItemsOf) == BlockBullets(blocks, |blocks|)
  {
    var st := MapPrefix(blocks, |blocks|, render, root);
    BulletsConserved(blocks, |blocks|, render, root);
    FlushGather(st, Or(st.section, "Contents"), ItemsOf);
  }

  /** Bullets still pending at the end go on one last slide, titled by the section or, without one, "Contents". */
  lemma LastFlush(blocks: seq<Block>, render: string -> Option<string>, root: string)
    requires AllWellFormed(blocks)
    ensures var st := MapPrefix(blocks, |blocks|, render, root);
      var slides := Convert(blocks, render, root);
      && (st.pending == [] ==> slides == st.slides)
      && (st.pending != [] ==>
            && |slides| == |st.slides| + 1 && slides[..|st.slides|] == st.slides
            && slides[|st.slides|].title == (if st.section != "" then st.section else "Contents")
            && slides[|st.slides|].body == BulletList(st.pending))
  {
  }

  // ---------------------------------------------------------------------------
  // Speaker notes
  // ---------------------------------------------------------------------------

  /**
    Notes met while bullets wait for their slide, or before any slide exists,
    are kept for the next slide; no slide changes.
   */
  lemma NotesWaitForNextSlide(st: MapState, text: string)
    requires st.Valid() && (st.pending != [] || st.slides == [])
    ensures var r := MapNotes(st, text);
      r.pendingNotes == Some(text) && r.slides == st.slides && r.pending == st.pending
  {
  }

  /** The next slide made carries notes that are waiting, unless they are empty, and they are then used up. */
  lemma WaitingNotesGoOnNextSlide(st: MapState, title: string, body: SlideBody)
    requires st.Valid() && Truthy(st.pendingNotes)
    ensures var r := AddSlide(st, title, body);
      r.slides[|r.slides| - 1].notes == st.pendingNotes && r.pendingNotes == None
  {
  }

  /**
    With a slide made and no bullets waiting, notes go on the newest slide at
    once, replacing its notes; every other slide and the waiting notes stay.
   */
  lemma NotesOnNewestSlide(st: MapState, text: string)
    requires st.Valid() && st.slides != [] && st.pending == []
    ensures var r := MapNotes(st, text);
      var n := |st.slides| - 1;
      && |r.slides| == |st.slides| && r.slides[..n] == st.slides[..n]
      && r.slides[n] == st.slides[n].(notes := Some(text))
      && r.pendingNotes == st.pendingNotes
  {
  }

  // ---------------------------------------------------------------------------
  // Slides already made
  // ---------------------------------------------------------------------------

  /** Over any stretch of blocks, slides are only added after the others, and earlier slides change at most in their notes. */
  lemma {:induction false} SlidesOnlyGrow(blocks: seq<Block>, j: nat, k: nat, render: string -> Option<string>, root: string)
    requires j <= k <= |blocks| && AllWellFormed(blocks)
    ensures Grows(MapPrefix(blocks, j, render, root).slides, MapPrefix(blocks, k, render, root).slides)
  {
    if j < k {
      var n := k - 1;
      SlidesOnlyGrow(blocks, j, n, render, root);
      PrefixStep(blocks, n, k, render, root);
      GrowsTransitive(MapPrefix(blocks, j, render, root).slides,
                      MapPrefix(blocks, n, render, root).slides,
                      MapPrefix(blocks, k, render, root).slides);
    }
  }

  /** One more block: the state after `m = n + 1` blocks is one `MapBlock` from the state after `n`. */
  lemma PrefixStep(blocks: seq<Block>, n: nat, m: nat, render: string -> Option<string>, root: string)
    requires m == n + 1 <= |blocks| && AllWellFormed(blocks)
    ensures MapPrefix(blocks, m, render, root) == MapBlock(MapPrefix(blocks, n, render, root), blocks[n], render, root)
  {
  }
}
