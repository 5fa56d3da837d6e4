/** The PDF converter (`PDFConverter.convert`): a title page, then for
    every volume a new page with its name and, for every chapter, its
    title and its wrapped lines, with a page added whenever the next title
    or line would fall below the bottom margin. The jsPDF document is
    modelled by the state the converter changes: its pages, its font size
    and the text it is asked to draw where. Line wrapping
    (`splitTextToSize`) is a parameter, and so is the page height. */
module Pdf {
  import opened JsText
  import opened Book

  /** Where a text is placed across the page: centred on the page, or at
      the left margin. */
  datatype Align = Centre | Margin

  /** One `pdf.text(text, x, y)` call: the page it lands on, the horizontal
      placement, the vertical position, the font size then set and the
      line or lines drawn. */
  datatype Draw = Draw(page: nat, align: Align, y: int, size: nat, text: seq<JsString>)

  const MARGIN: int := 20
  const DEFAULT_SIZE: nat := 16
  const TITLE_SIZE: nat := 24
  const AUTHOR_SIZE: nat := 16
  const DESCRIPTION_SIZE: nat := 12
  const VOLUME_SIZE: nat := 20
  const CHAPTER_TITLE_SIZE: nat := 16
  const LINE_SIZE: nat := 11

  /** A jsPDF document as the converter uses it. */
  class Document {
    /** The number of pages; the last one is the page text is drawn on. */
    var pages: nat
    var fontSize: nat
    /** Every text drawn so far, in order. */
    var draws: seq<Draw>

    /** `new jsPDF()`: one empty page at the default font size. */
    constructor()
      ensures pages == 1 && fontSize == DEFAULT_SIZE && draws == []
    {
      pages := 1;
      fontSize := DEFAULT_SIZE;
      draws := [];
    }

    /** `pdf.addPage()`: a new page becomes the current one. */
    method AddPage()
      modifies this
      ensures pages == old(pages) + 1 && fontSize == old(fontSize) && draws == old(draws)
    {
      pages := pages + 1;
    }

    /** `pdf.setFontSize(size)` */
    method SetFontSize(size: nat)
      modifies this
      ensures fontSize == size && pages == old(pages) && draws == old(draws)
    {
      fontSize := size;
    }

    /** `pdf.text(text, x, y)`: drawn on the current page at the current
        font size. */
    method Text(text: seq<JsString>, align: Align, y: int)
      modifies this
      ensures draws == old(draws) + [Draw(pages, align, y, fontSize, text)]
      ensures pages == old(pages) && fontSize == old(fontSize)
    {
      draws := draws + [Draw(pages, align, y, fontSize, text)];
    }
  }

  // ---------------------------------------------------------------------
  // The layout the converter produces
  // ---------------------------------------------------------------------

  /** The current page and `currentY`. */
  datatype Cursor = Cursor(page: nat, y: int)

  /** The texts drawn so far, the cursor, and how many times a page was
      added because the next title or line did not fit. */
  datatype Layout = Layout(draws: seq<Draw>, at: Cursor, breaks: nat)

  /** `if (currentY > limit) { pdf.addPage(); currentY = margin; }` */
  function Break(limit: int, c: Cursor): Cursor
  {
    if c.y > limit then Cursor(c.page + 1, MARGIN) else c
  }

  function BreakCount(limit: int, c: Cursor): nat
  {
    if c.y > limit then 1 else 0
  }

  /** A title or a line placed at the cursor, on a new page when the
      cursor is past `limit`, the cursor then moving down by `advance`. */
  function Place(start: Layout, limit: int, align: Align, size: nat, text: seq<JsString>, advance: int): (r: Layout)
    ensures start.draws <= r.draws && |r.draws| == |start.draws| + 1
    ensures r.at.page + start.breaks == start.at.page + r.breaks
  {
    var c := Break(limit, start.at);
    PrefixSelf(start.draws, [Draw(c.page, align, c.y, size, text)]);
    Layout(start.draws + [Draw(c.page, align, c.y, size, text)], Cursor(c.page, c.y + advance), start.breaks + BreakCount(limit, start.at))
  }

  /** The content line loop: each line goes below the previous one, on a
      new page when the cursor is past `pageHeight - margin`. */
  function LinesLayout(h: int, start: Layout, lines: seq<JsString>): (r: Layout)
    ensures start.draws <= r.draws && |r.draws| == |start.draws| + |lines|
    ensures r.at.page + start.breaks == start.at.page + r.breaks
    decreases |lines|
  {
    if lines == [] then start
    else
      var p := LinesLayout(h, start, lines[..|lines| - 1]);
      var r := Place(p, h - MARGIN, Margin, LINE_SIZE, [lines[|lines| - 1]], 5);
      PrefixTransitive(start.draws, p.draws, r.draws);
      r
  }

  /** One chapter: its title, on a new page when the cursor is past
      `pageHeight - 60`, then its lines, then a gap of 10. `wrap(size,
      text)` is what `splitTextToSize` makes of `text` at font size `size`. */
  function ChapterLayout(h: int, wrap: (nat, JsString) -> seq<JsString>, start: Layout, c: Chapter): (r: Layout)
    ensures start.draws <= r.draws
    ensures r.at.page + start.breaks == start.at.page + r.breaks
  {
    var titled := Place(start, h - 60, Margin, CHAPTER_TITLE_SIZE, [c.title], 20);
    var body := LinesLayout(h, titled, wrap(LINE_SIZE, c.content));
    PrefixTransitive(start.draws, titled.draws, body.draws);
    Layout(body.draws, Cursor(body.at.page, body.at.y + 10), body.breaks)
  }

  function ChaptersLayout(h: int, wrap: (nat, JsString) -> seq<JsString>, start: Layout, chs: seq<Chapter>): (r: Layout)
    ensures start.draws <= r.draws
    ensures r.at.page + start.breaks == start.at.page + r.breaks
    decreases |chs|
  {
    if chs == [] then start
    else
      var p := ChaptersLayout(h, wrap, start, chs[..|chs| - 1]);
      var r := ChapterLayout(h, wrap, p, chs[|chs| - 1]);
      PrefixTransitive(start.draws, p.draws, r.draws);
      r
  }

  /** One volume: a new page with the volume name at y 50, the cursor at
      80, then the chapters. */
  function VolumeLayout(h: int, wrap: (nat, JsString) -> seq<JsString>, start: Layout, v: Volume): (r: Layout)
    ensures start.draws <= r.draws
    ensures r.at.page + start.breaks == start.at.page + 1 + r.breaks
  {
    var name := Draw(start.at.page + 1, Centre, 50, VOLUME_SIZE, [v.name]);
    var named := Layout(start.draws + [name], Cursor(start.at.page + 1, 80), start.breaks);
    var r := ChaptersLayout(h, wrap, named, v.chapters);
    PrefixSelf(start.draws, [name]);
    PrefixTransitive(start.draws, named.draws, r.draws);
    r
  }

  function VolumesLayout(h: int, wrap: (nat, JsString) -> seq<JsString>, start: Layout, vols: seq<Volume>): (r: Layout)
    ensures start.draws <= r.draws
    ensures r.at.page + start.breaks == start.at.page + |vols| + r.breaks
    decreases |vols|
  {
    if vols == [] then start
    else
      var p := VolumesLayout(h, wrap, start, vols[..|vols| - 1]);
      var r := VolumeLayout(h, wrap, p, vols[|vols| - 1]);
      PrefixTransitive(start.draws, p.draws, r.draws);
      r
  }

  /** The title page: the title at y 50, `by` and the author at y 70 and,
      when there is a description, its wrapped lines at y 100. */
  function TitleDraws(book: Book, wrap: (nat, JsString) -> seq<JsString>): seq<Draw>
  {
    [Draw(1, Centre, 50, TITLE_SIZE, [book.title]), Draw(1, Centre, 70, AUTHOR_SIZE, [Lit("by ") + book.author])]
    + (if book.description != [] then [Draw(1, Centre, 100, DESCRIPTION_SIZE, wrap(DESCRIPTION_SIZE, book.description))] else [])
  }

  /** Everything `convert` draws for a page height of `h`; `currentY`
      starts at 150. The page count is one more than the volumes and the
      page breaks together, and the title page comes first. */
  function PdfLayout(book: Book, h: int, wrap: (nat, JsString) -> seq<JsString>): (r: Layout)
    ensures TitleDraws(book, wrap) <= r.draws
    ensures r.at.page == 1 + |book.content| + r.breaks
  {
    VolumesLayout(h, wrap, Layout(TitleDraws(book, wrap), Cursor(1, 150), 0), book.content)
  }

  // ---------------------------------------------------------------------
  // convert
  // ---------------------------------------------------------------------

  /** The content line loop of one chapter. */
  method DrawLines(doc: Document, h: int, lines: seq<JsString>, y0: int, ghost start: Layout) returns (y: int, ghost after: Layout)
    requires doc.draws == start.draws && doc.pages == start.at.page && y0 == start.at.y && doc.fontSize == LINE_SIZE
    modifies doc
    ensures after == LinesLayout(h, start, lines)
    ensures doc.draws == after.draws && doc.pages == after.at.page && y == after.at.y && doc.fontSize == LINE_SIZE
  {
    y, after := y0, start;
    var i := 0;
    while i < |lines|
      invariant i <= |lines|
      invariant after == LinesLayout(h, start, lines[..i])
      invariant doc.draws == after.draws && doc.pages == after.at.page && y == after.at.y && doc.fontSize == LINE_SIZE
    {
      ghost var broke := BreakCount(h - MARGIN, after.at);
      if y > h - MARGIN {
        doc.AddPage();
        y := MARGIN;
      }
      doc.Text([lines[i]], Margin, y);
      y := y + 5;
      assert lines[..i + 1][..i] == lines[..i];
      after := Layout(doc.draws, Cursor(doc.pages, y), after.breaks + broke);
      i := i + 1;
    }
    assert lines[..i] == lines;
  }

  /** One iteration of the chapter loop. */
  method DrawChapter(doc: Document, h: int, wrap: (nat, JsString) -> seq<JsString>, c: Chapter, y0: int, ghost start: Layout)
    returns (y: int, ghost after: Layout)
    requires doc.draws == start.draws && doc.pages == start.at.page && y0 == start.at.y
    modifies doc
    ensures after == ChapterLayout(h, wrap, start, c)
    ensures doc.draws == after.draws && doc.pages == after.at.page && y == after.at.y
  {
    y := y0;
    ghost var broke := BreakCount(h - 60, start.at);
    if y > h - 60 {
      doc.AddPage();
      y := MARGIN;
    }
    doc.SetFontSize(CHAPTER_TITLE_SIZE);
    doc.Text([c.title], Margin, y);
    y := y + 20;
    doc.SetFontSize(LINE_SIZE);
    var contentLines := wrap(doc.fontSize, c.content);
    ghost var titled := Layout(doc.draws, Cursor(doc.pages, y), start.breaks + broke);
    y, after := DrawLines(doc, h, contentLines, y, titled);
    y := y + 10;
    after := Layout(after.draws, Cursor(after.at.page, y), after.breaks);
  }

  /** One iteration of the volume loop. */
  method DrawVolume(doc: Document, h: int, wrap: (nat, JsString) -> seq<JsString>, v: Volume, ghost start: Layout)
    returns (y: int, ghost after: Layout)
    requires doc.draws == start.draws && doc.pages == start.at.page
    modifies doc
    ensures after == VolumeLayout(h, wrap, start, v)
    ensures doc.draws == after.draws && doc.pages == after.at.page && y == after.at.y
  {
    doc.AddPage();
    doc.SetFontSize(VOLUME_SIZE);
    doc.Text([v.name], Centre, 50);
    y := 80;
    ghost var named := Layout(doc.draws, Cursor(doc.pages, y), start.breaks);
    after := named;
    var j := 0;
    while j < |v.chapters|
      invariant j <= |v.chapters|
      invariant after == ChaptersLayout(h, wrap, named, v.chapters[..j])
      invariant doc.draws == after.draws && doc.pages == after.at.page && y == after.at.y
    {
      assert v.chapters[..j + 1][..j] == v.chapters[..j];
      y, after := DrawChapter(doc, h, wrap, v.chapters[j], y, after);
      j := j + 1;
    }
    assert v.chapters[..j] == v.chapters;
  }

  /** `convert` for a page height of `pageHeight`: the document it leaves
      before `pdf.save`. */
  method Convert(book: Book, pageHeight: int, wrap: (nat, JsString) -> seq<JsString>) returns (doc: Document)
    ensures doc.draws == PdfLayout(book, pageHeight, wrap).draws
    ensures doc.pages == PdfLayout(book, pageHeight, wrap).at.page
  {
    doc := new Document();
    doc.SetFontSize(TITLE_SIZE);
    doc.Text([book.title], Centre, 50);
    doc.SetFontSize(AUTHOR_SIZE);
    doc.Text([Lit("by ") + book.author], Centre, 70);
    if book.description != [] {
      doc.SetFontSize(DESCRIPTION_SIZE);
      var descLines := wrap(doc.fontSize, book.description);
      doc.Text(descLines, Centre, 100);
    } else {
      assert doc.draws + [] == doc.draws;
    }
    assert doc.draws == TitleDraws(book, wrap) && doc.pages == 1;
    var currentY := 150;
    ghost var start := Layout(doc.draws, Cursor(doc.pages, currentY), 0);
    ghost var after := start;
    var i := 0;
    while i < |book.content|
      invariant i <= |book.content|
      invariant after == VolumesLayout(pageHeight, wrap, start, book.content[..i])
      invariant doc.draws == after.draws && doc.pages == after.at.page
      modifies doc
    {
      assert book.content[..i + 1][..i] == book.content[..i];
      currentY, after := DrawVolume(doc, pageHeight, wrap, book.content[i], after);
      i := i + 1;
    }
    assert book.content[..i] == book.content;
  }

  // ---------------------------------------------------------------------
  // What is drawn: every title and every line once, in book order
  // ---------------------------------------------------------------------

  /** The texts of a run of draws, in order. */
  function Texts(ds: seq<Draw>): seq<seq<JsString>>
  {
    seq(|ds|, i requires 0 <= i < |ds| => ds[i].text)
  }

  /** Each line as a text of its own. */
  function Singletons(lines: seq<JsString>): seq<seq<JsString>>
  {
    seq(|lines|, i requires 0 <= i < |lines| => [lines[i]])
  }

  /** What one chapter draws: its title, then each of its wrapped lines. */
  function ChapterTexts(wrap: (nat, JsString) -> seq<JsString>, k: nat, v: Volume, c: Chapter): seq<seq<JsString>>
  {
    [[c.title]] + Singletons(wrap(LINE_SIZE, c.content))
  }

  /** What a volume draws before its chapters: its name. */
  function VolumeTexts(wrap: (nat, JsString) -> seq<JsString>, v: Volume): seq<seq<JsString>>
  {
    [[v.name]]
  }

  /** What the title page draws. */
  function TitleTexts(book: Book, wrap: (nat, JsString) -> seq<JsString>): seq<seq<JsString>>
  {
    [[book.title], [Lit("by ") + book.author]]
    + (if book.description != [] then [wrap(DESCRIPTION_SIZE, book.description)] else [])
  }

  lemma TextsAppend(a: seq<Draw>, b: seq<Draw>)
    ensures Texts(a + b) == Texts(a) + Texts(b)
  {
  }

  lemma PlaceTexts(start: Layout, limit: int, align: Align, size: nat, text: seq<JsString>, advance: int)
    ensures Texts(Place(start, limit, align, size, text, advance).draws) == Texts(start.draws) + [text]
  {
    var r := Place(start, limit, align, size, text, advance);
    TextsAppend(start.draws, [r.draws[|r.draws| - 1]]);
  }

  lemma {:induction false} LinesTexts(h: int, start: Layout, lines: seq<JsString>)
    ensures Texts(LinesLayout(h, start, lines).draws) == Texts(start.draws) + Singletons(lines)
    decreases |lines|
  {
    if lines == [] {
      assert Singletons(lines) == [];
    } else {
      var front := lines[..|lines| - 1];
      var p := LinesLayout(h, start, front);
      LinesTexts(h, start, front);
      PlaceTexts(p, h - MARGIN, Margin, LINE_SIZE, [lines[|lines| - 1]], 5);
      assert Singletons(lines) == Singletons(front) + [[lines[|lines| - 1]]];
      AppendAssoc(Texts(start.draws), Singletons(front), [[lines[|lines| - 1]]]);
    }
  }

  lemma ChapterDrawsTexts(h: int, wrap: (nat, JsString) -> seq<JsString>, start: Layout, k: nat, v: Volume, c: Chapter)
    ensures Texts(ChapterLayout(h, wrap, start, c).draws) == Texts(start.draws) + ChapterTexts(wrap, k, v, c)
  {
    var titled := Place(start, h - 60, Margin, CHAPTER_TITLE_SIZE, [c.title], 20);
    PlaceTexts(start, h - 60, Margin, CHAPTER_TITLE_SIZE, [c.title], 20);
    LinesTexts(h, titled, wrap(LINE_SIZE, c.content));
    AppendAssoc(Texts(start.draws), [[c.title]], Singletons(wrap(LINE_SIZE, c.content)));
  }

  lemma {:induction false} ChaptersDrawsTexts(h: int, wrap: (nat, JsString) -> seq<JsString>, start: Layout, k: nat, v: Volume, chs: seq<Chapter>)
    ensures Texts(ChaptersLayout(h, wrap, start, chs).draws) == Texts(start.draws) + ChaptersOut(wrap, k, v, chs, ChapterTexts)
    decreases |chs|
  {
    if chs != [] {
      var front := chs[..|chs| - 1];
      var p := ChaptersLayout(h, wrap, start, front);
      ChaptersDrawsTexts(h, wrap, start, k, v, front);
      ChapterDrawsTexts(h, wrap, p, k + |chs| - 1, v, chs[|chs| - 1]);
      AppendAssoc(Texts(start.draws), ChaptersOut(wrap, k, v, front, ChapterTexts), ChapterTexts(wrap, k + |chs| - 1, v, chs[|chs| - 1]));
    }
  }

  lemma VolumeDrawsTexts(h: int, wrap: (nat, JsString) -> seq<JsString>, start: Layout, k: nat, v: Volume)
    ensures Texts(VolumeLayout(h, wrap, start, v).draws) == Texts(start.draws) + VolumeOut(wrap, k, v, VolumeTexts, ChapterTexts, NoOut)
  {
    var name := Draw(start.at.page + 1, Centre, 50, VOLUME_SIZE, [v.name]);
    var named := Layout(start.draws + [name], Cursor(start.at.page + 1, 80), start.breaks);
    var chapters := ChaptersOut(wrap, k, v, v.chapters, ChapterTexts);
    calc {
      Texts(VolumeLayout(h, wrap, start, v).draws);
      Texts(ChaptersLayout(h, wrap, named, v.chapters).draws);
      { ChaptersDrawsTexts(h, wrap, named, k, v, v.chapters); }
      Texts(named.draws) + chapters;
      { TextsAppend(start.draws, [name]);
        assert Texts([name]) == [[v.name]]; }
      Texts(start.draws) + [[v.name]] + chapters;
      { AppendAssoc(Texts(start.draws), [[v.name]], chapters);
        assert NoOut<(nat, JsString) -> seq<JsString>, seq<JsString>>(wrap, v) == [];
        assert VolumeOut(wrap, k, v, VolumeTexts, ChapterTexts, NoOut) == [[v.name]] + chapters; }
      Texts(start.draws) + VolumeOut(wrap, k, v, VolumeTexts, ChapterTexts, NoOut);
    }
  }

  lemma {:induction false} VolumesDrawsTexts(h: int, wrap: (nat, JsString) -> seq<JsString>, start: Layout, vols: seq<Volume>)
    ensures Texts(VolumesLayout(h, wrap, start, vols).draws) == Texts(start.draws) + VolumesOut(wrap, vols, VolumeTexts, ChapterTexts, NoOut)
    decreases |vols|
  {
    if vols != [] {
      var front := vols[..|vols| - 1];
      var p := VolumesLayout(h, wrap, start, front);
      VolumesDrawsTexts(h, wrap, start, front);
      VolumeDrawsTexts(h, wrap, p, ChapterTotal(front), vols[|vols| - 1]);
      AppendAssoc(Texts(start.draws), VolumesOut(wrap, front, VolumeTexts, ChapterTexts, NoOut),
        VolumeOut(wrap, ChapterTotal(front), vols[|vols| - 1], VolumeTexts, ChapterTexts, NoOut));
    }
  }

  /** Whatever the page height, `convert` draws the title page, then every
      volume name followed by, for each of its chapters, the chapter title
      and each wrapped line of its content exactly once, in book order. */
  lemma PdfTexts(book: Book, h: int, wrap: (nat, JsString) -> seq<JsString>)
    ensures Texts(PdfLayout(book, h, wrap).draws)
      == TitleTexts(book, wrap) + VolumesOut(wrap, book.content, VolumeTexts, ChapterTexts, NoOut)
  {
    var start := Layout(TitleDraws(book, wrap), Cursor(1, 150), 0);
    VolumesDrawsTexts(h, wrap, start, book.content);
    assert Texts(TitleDraws(book, wrap)) == TitleTexts(book, wrap);
  }

  // ---------------------------------------------------------------------
  // Where it is drawn: inside the margins
  // ---------------------------------------------------------------------

  /** Content lines sit between the top and the bottom margin, and chapter
      titles leave at least 60 below them. */
  predicate InBounds(h: int, d: Draw)
  {
    && (d.size == LINE_SIZE ==> MARGIN <= d.y <= h - MARGIN)
    && (d.size == CHAPTER_TITLE_SIZE && d.align == Margin ==> MARGIN <= d.y <= h - 60)
  }

  predicate AllInBounds(h: int, ds: seq<Draw>)
  {
    forall i :: 0 <= i < |ds| ==> InBounds(h, ds[i])
  }

  predicate Bounded(h: int, l: Layout)
  {
    MARGIN <= l.at.y && AllInBounds(h, l.draws)
  }

  lemma PlaceBounded(h: int, start: Layout, limit: int, align: Align, size: nat, text: seq<JsString>, advance: int)
    requires Bounded(h, start) && MARGIN <= limit && 0 <= advance
    requires size == LINE_SIZE ==> limit <= h - MARGIN
    requires size == CHAPTER_TITLE_SIZE && align == Margin ==> limit <= h - 60
    ensures Bounded(h, Place(start, limit, align, size, text, advance))
  {
    var r := Place(start, limit, align, size, text, advance);
    assert InBounds(h, r.draws[|r.draws| - 1]);
    assert forall i :: 0 <= i < |start.draws| ==> r.draws[i] == start.draws[i];
  }

  lemma {:induction false} LinesBounded(h: int, start: Layout, lines: seq<JsString>)
    requires 2 * MARGIN <= h && Bounded(h, start)
    ensures Bounded(h, LinesLayout(h, start, lines))
    decreases |lines|
  {
    if lines != [] {
      var p := LinesLayout(h, start, lines[..|lines| - 1]);
      LinesBounded(h, start, lines[..|lines| - 1]);
      PlaceBounded(h, p, h - MARGIN, Margin, LINE_SIZE, [lines[|lines| - 1]], 5);
    }
  }

  lemma ChapterBounded(h: int, wrap: (nat, JsString) -> seq<JsString>, start: Layout, c: Chapter)
    requires 80 <= h && Bounded(h, start)
    ensures Bounded(h, ChapterLayout(h, wrap, start, c))
  {
    PlaceBounded(h, start, h - 60, Margin, CHAPTER_TITLE_SIZE, [c.title], 20);
    LinesBounded(h, Place(start, h - 60, Margin, CHAPTER_TITLE_SIZE, [c.title], 20), wrap(LINE_SIZE, c.content));
  }

  lemma {:induction false} ChaptersBounded(h: int, wrap: (nat, JsString) -> seq<JsString>, start: Layout, chs: seq<Chapter>)
    requires 80 <= h && Bounded(h, start)
    ensures Bounded(h, ChaptersLayout(h, wrap, start, chs))
    decreases |chs|
  {
    if chs != [] {
      ChaptersBounded(h, wrap, start, chs[..|chs| - 1]);
      ChapterBounded(h, wrap, ChaptersLayout(h, wrap, start, chs[..|chs| - 1]), chs[|chs| - 1]);
    }
  }

  lemma VolumeBounded(h: int, wrap: (nat, JsString) -> seq<JsString>, start: Layout, v: Volume)
    requires 80 <= h && Bounded(h, start)
    ensures Bounded(h, VolumeLayout(h, wrap, start, v))
  {
    var name := Draw(start.at.page + 1, Centre, 50, VOLUME_SIZE, [v.name]);
    var named := Layout(start.draws + [name], Cursor(start.at.page + 1, 80), start.breaks);
    assert forall i :: 0 <= i < |start.draws| ==> named.draws[i] == start.draws[i];
    assert InBounds(h, named.draws[|start.draws|]);
    ChaptersBounded(h, wrap, named, v.chapters);
  }

  lemma {:induction false} VolumesBounded(h: int, wrap: (nat, JsString) -> seq<JsString>, start: Layout, vols: seq<Volume>)
    requires 80 <= h && Bounded(h, start)
    ensures Bounded(h, VolumesLayout(h, wrap, start, vols))
    decreases |vols|
  {
    if vols != [] {
      VolumesBounded(h, wrap, start, vols[..|vols| - 1]);
      VolumeBounded(h, wrap, VolumesLayout(h, wrap, start, vols[..|vols| - 1]), vols[|vols| - 1]);
    }
  }

  /** On a page at least 80 high, every content line is drawn between the
      top and the bottom margin and every chapter title at least 60 above
      the bottom edge. */
  lemma PdfBounds(book: Book, h: int, wrap: (nat, JsString) -> seq<JsString>)
    requires 80 <= h
    ensures AllInBounds(h, PdfLayout(book, h, wrap).draws)
  {
    var start := Layout(TitleDraws(book, wrap), Cursor(1, 150), 0);
    assert AllInBounds(h, start.draws);
    VolumesBounded(h, wrap, start, book.content);
  }

  // ---------------------------------------------------------------------
  // In what order: down the page, page after page
  // ---------------------------------------------------------------------

  /** `e` comes after `d`: on the next page, or on the same page at least
      one line step (5) lower. */
  predicate Follows(d: Draw, e: Draw)
  {
    e.page == d.page + 1 || (e.page == d.page && e.y >= d.y + 5)
  }

  predicate Flows(ds: seq<Draw>)
  {
    forall i :: 0 < i < |ds| ==> Follows(ds[i - 1], ds[i])
  }

  /** The draws flow, and the cursor is on the page of the last one, at
      least a line step below it. */
  predicate Flowing(l: Layout)
  {
    && Flows(l.draws) && |l.draws| > 0
    && l.draws[|l.draws| - 1].page == l.at.page
    && l.at.y >= l.draws[|l.draws| - 1].y + 5
  }

  lemma FlowsSnoc(ds: seq<Draw>, e: Draw)
    requires Flows(ds) && |ds| > 0 && Follows(ds[|ds| - 1], e)
    ensures Flows(ds + [e])
  {
    var r := ds + [e];
    forall i | 0 < i < |r|
      ensures Follows(r[i - 1], r[i])
    {
      if i < |ds| {
        assert r[i - 1] == ds[i - 1] && r[i] == ds[i];
      }
    }
  }

  lemma PlaceFlowing(start: Layout, limit: int, align: Align, size: nat, text: seq<JsString>, advance: int)
    requires Flowing(start) && 5 <= advance
    ensures Flowing(Place(start, limit, align, size, text, advance))
  {
    var c := Break(limit, start.at);
    FlowsSnoc(start.draws, Draw(c.page, align, c.y, size, text));
  }

  lemma {:induction false} LinesFlowing(h: int, start: Layout, lines: seq<JsString>)
    requires Flowing(start)
    ensures Flowing(LinesLayout(h, start, lines))
    decreases |lines|
  {
    if lines != [] {
      var p := LinesLayout(h, start, lines[..|lines| - 1]);
      LinesFlowing(h, start, lines[..|lines| - 1]);
      PlaceFlowing(p, h - MARGIN, Margin, LINE_SIZE, [lines[|lines| - 1]], 5);
    }
  }

  lemma ChapterFlowing(h: int, wrap: (nat, JsString) -> seq<JsString>, start: Layout, c: Chapter)
    requires Flowing(start)
    ensures Flowing(ChapterLayout(h, wrap, start, c))
  {
    PlaceFlowing(start, h - 60, Margin, CHAPTER_TITLE_SIZE, [c.title], 20);
    LinesFlowing(h, Place(start, h - 60, Margin, CHAPTER_TITLE_SIZE, [c.title], 20), wrap(LINE_SIZE, c.content));
  }

  lemma {:induction false} ChaptersFlowing(h: int, wrap: (nat, JsString) -> seq<JsString>, start: Layout, chs: seq<Chapter>)
    requires Flowing(start)
    ensures Flowing(ChaptersLayout(h, wrap, start, chs))
    decreases |chs|
  {
    if chs != [] {
      ChaptersFlowing(h, wrap, start, chs[..|chs| - 1]);
      ChapterFlowing(h, wrap, ChaptersLayout(h, wrap, start, chs[..|chs| - 1]), chs[|chs| - 1]);
    }
  }

  lemma VolumeFlowing(h: int, wrap: (nat, JsString) -> seq<JsString>, start: Layout, v: Volume)
    requires Flowing(start)
    ensures Flowing(VolumeLayout(h, wrap, start, v))
  {
    var name := Draw(start.at.page + 1, Centre, 50, VOLUME_SIZE, [v.name]);
    FlowsSnoc(start.draws, name);
    ChaptersFlowing(h, wrap, Layout(start.draws + [name], Cursor(start.at.page + 1, 80), start.breaks), v.chapters);
  }

  lemma {:induction false} VolumesFlowing(h: int, wrap: (nat, JsString) -> seq<JsString>, start: Layout, vols: seq<Volume>)
    requires Flowing(start)
    ensures Flowing(VolumesLayout(h, wrap, start, vols))
    decreases |vols|
  {
    if vols != [] {
      VolumesFlowing(h, wrap, start, vols[..|vols| - 1]);
      VolumeFlowing(h, wrap, VolumesLayout(h, wrap, start, vols[..|vols| - 1]), vols[|vols| - 1]);
    }
  }

  /** Texts never overlap: each is drawn on the page after the one before
      it or at least a line step lower on the same page, starting on page
      1, and the last one is on the last page. */
  lemma PdfFlows(book: Book, h: int, wrap: (nat, JsString) -> seq<JsString>)
    ensures var l := PdfLayout(book, h, wrap);
      && Flows(l.draws) && l.draws[0].page == 1
      && l.draws[|l.draws| - 1].page == l.at.page
  {
    var start := Layout(TitleDraws(book, wrap), Cursor(1, 150), 0);
    assert Flowing(start);
    VolumesFlowing(h, wrap, start, book.content);
    assert start.draws[0] == PdfLayout(book, h, wrap).draws[0];
  }

  /** `20 + (processedChapters / totalChapters) * 70` before chapter `k`:
      from 20, strictly increasing, below 90. */
  lemma PdfProgress(k: nat, n: nat)
    requires k < n
    ensures 20.0 <= ChapterProgress(20.0, 70.0, k, n) < 90.0
    ensures k + 1 < n ==> ChapterProgress(20.0, 70.0, k, n) < ChapterProgress(20.0, 70.0, k + 1, n)
  {
    ProgressMonotone(20.0, 70.0, k, n, n);
    if k + 1 < n {
      ProgressMonotone(20.0, 70.0, k, k + 1, n);
    }
  }
}
