/** The plain-text converter (`TXTConverter.convert`): a title page, a
    rule of `=`, then every volume name underlined with dashes and every
    chapter's heading line, its text as it is, and a dashed separator. */
module Txt {
  import opened JsText
  import opened Book

  const EQUALS: CodeUnit := 0x3D
  const DASH: CodeUnit := 0x2D
  const BLANK: JsString := [NEWLINE, NEWLINE]

  /** `u.repeat(n)` for a string of the one code unit `u`. */
  function Repeat(u: CodeUnit, n: nat): (r: JsString)
    ensures |r| == n && forall i :: 0 <= i < n ==> r[i] == u
  {
    seq(n, i => u)
  }

  /** The title in capitals on its own line, then `by ` and the author and
      a blank line. */
  function TitlePage(book: Book): JsString
  {
    ToUpperAscii(book.title) + [NEWLINE] + Lit("by ") + book.author + BLANK
  }

  /** The description and a blank line, when there is one. */
  function DescriptionBlock(description: JsString): JsString
  {
    if description != [] then description + BLANK else []
  }

  /** `'=' + '='.repeat(60) + '\n\n'` */
  function Rule(u: ()): JsString
  {
    [EQUALS] + Repeat(EQUALS, 60) + BLANK
  }

  /** The volume name in capitals, underlined by as many dashes as the
      name has code units: two lines of equal length. */
  function VolumeHeading(u: (), v: Volume): (h: JsString)
    ensures var n := |v.name|;
      && |h| == 2 * n + 3
      && h[..n] == ToUpperAscii(v.name) && h[n] == NEWLINE
      && (forall i :: n < i <= 2 * n ==> h[i] == DASH)
      && h[2 * n + 1..] == BLANK
  {
    ToUpperAscii(v.name) + [NEWLINE] + Repeat(DASH, |v.name|) + BLANK
  }

  function ChapterLine(c: Chapter): JsString
  {
    Lit("Chapter ") + IndexText(c.index) + Lit(": ") + c.title + BLANK
  }

  function ChapterSeparator(u: ()): JsString
  {
    [NEWLINE] + Repeat(DASH, 40) + BLANK
  }

  /** The three `content +=` steps of one chapter. */
  function ChapterText(u: (), k: nat, v: Volume, c: Chapter): JsString
  {
    ChapterLine(c) + c.content + BLANK + ChapterSeparator(())
  }

  /** Everything before the first volume. */
  function Front(book: Book): JsString
  {
    TitlePage(book) + DescriptionBlock(book.description) + Rule(())
  }

  /** The text `convert` builds. */
  function TxtText(book: Book): JsString
  {
    Front(book) + VolumesOut((), book.content, VolumeHeading, ChapterText, NoOut)
  }

  /** The `content +=` steps of `convert`, the volume and chapter loops
      among them. */
  method Convert(book: Book) returns (content: JsString)
    ensures content == TxtText(book)
  {
    content := [];
    content := content + (ToUpperAscii(book.title) + [NEWLINE]);
    content := content + (Lit("by ") + book.author + BLANK);
    if book.description != [] {
      content := content + (book.description + BLANK);
    } else {
      assert content + [] == content;
    }
    content := content + ([EQUALS] + Repeat(EQUALS, 60) + BLANK);
    assert content == Front(book);
    content := Walk((), content, book.content, VolumeHeading, ChapterText, NoOut);
  }

  // ---------------------------------------------------------------------
  // What the text holds
  // ---------------------------------------------------------------------

  /** The text opens with the title in capitals, which holds no lower-case
      ASCII letter, and a line feed. */
  lemma TitleFirst(book: Book)
    ensures |TxtText(book)| > |book.title|
    ensures TxtText(book)[..|book.title|] == ToUpperAscii(book.title)
    ensures forall i :: 0 <= i < |book.title| ==> !IsAsciiLower(TxtText(book)[i])
    ensures TxtText(book)[|book.title|] == NEWLINE
  {
    var t := ToUpperAscii(book.title);
    var l := t + [NEWLINE];
    PrefixSelf(l, Lit("by "));
    PrefixTrans(l, l + Lit("by "), book.author);
    PrefixTrans(l, l + Lit("by ") + book.author, BLANK);
    PrefixTrans(l, TitlePage(book), DescriptionBlock(book.description));
    PrefixTrans(l, TitlePage(book) + DescriptionBlock(book.description), Rule(()));
    PrefixTrans(l, Front(book), VolumesOut((), book.content, VolumeHeading, ChapterText, NoOut));
    var w := TxtText(book);
    assert w[..|l|] == l;
    assert w[..|t|] == l[..|t|] == t;
    assert w[|t|] == l[|t|];
  }

  /** After the title page comes the description block exactly when the
      description is not empty, then the rule. */
  lemma DescriptionIfAny(book: Book)
    ensures var f := Front(book);
      var n := |TitlePage(book)|;
      && (book.description != [] ==> f[n..] == book.description + BLANK + Rule(()))
      && (book.description == [] ==> f[n..] == Rule(()))
  {
    var f := Front(book);
    var n := |TitlePage(book)|;
    assert f == TitlePage(book) + (DescriptionBlock(book.description) + Rule(()));
    assert f[n..] == DescriptionBlock(book.description) + Rule(());
  }

  /** The rule is 61 `=` and a blank line. */
  lemma RuleShape()
    ensures |Rule(())| == 63
    ensures forall i :: 0 <= i < 61 ==> Rule(())[i] == EQUALS
    ensures Rule(())[61..] == BLANK
    ensures Count(EQUALS, Rule(())) == 61
  {
    var r := Rule(());
    assert r == Repeat(EQUALS, 61) + BLANK;
    CountAppend(EQUALS, Repeat(EQUALS, 61), BLANK);
    CountAbsent(EQUALS, BLANK);
    RepeatCount(EQUALS, 61);
  }

  lemma {:induction false} RepeatCount(u: CodeUnit, n: nat)
    ensures Count(u, Repeat(u, n)) == n
  {
    if n > 0 {
      RepeatCount(u, n - 1);
      assert Repeat(u, n) == Repeat(u, n - 1) + [u];
      CountAppend(u, Repeat(u, n - 1), [u]);
    }
  }

  /** The text of chapter `j` of volume `i` is in the output as it is,
      after its heading line and after everything produced for the
      chapters before it. */
  lemma ContentVerbatim(book: Book, i: nat, j: nat)
    requires i < |book.content| && j < |book.content[i].chapters|
    ensures var vols := book.content;
      var c := vols[i].chapters[j];
      var k := ChapterTotal(vols[..i]);
      Front(book)
      + (VolumesOut((), vols[..i], VolumeHeading, ChapterText, NoOut) + VolumeHeading((), vols[i])
         + ChaptersOut((), k, vols[i], vols[i].chapters[..j], ChapterText))
      + ChapterLine(c) + c.content
      <= TxtText(book)
  {
    var vols := book.content;
    var c := vols[i].chapters[j];
    var k := ChapterTotal(vols[..i]);
    var before := VolumesOut((), vols[..i], VolumeHeading, ChapterText, NoOut) + VolumeHeading((), vols[i])
      + ChaptersOut((), k, vols[i], vols[i].chapters[..j], ChapterText);
    var x := ChapterLine(c) + c.content;
    var rest := BLANK + ChapterSeparator(());
    VolumesPrefix((), vols, i, j, VolumeHeading, ChapterText, NoOut);
    AppendAssoc(x, BLANK, ChapterSeparator(()));
    AppendAssoc(before, x, rest);
    PrefixSelf(before + x, rest);
    PrefixTransitive(before + x, OutThrough((), vols, i, j, VolumeHeading, ChapterText, NoOut), VolumesOut((), vols, VolumeHeading, ChapterText, NoOut));
    PrefixFront(Front(book), before + x, VolumesOut((), vols, VolumeHeading, ChapterText, NoOut));
    AppendAssoc(Front(book), before, x);
    AppendAssoc(Front(book) + before, ChapterLine(c), c.content);
  }

  /** `10 + (processedChapters / totalChapters) * 80` before chapter `k`:
      from 10, strictly increasing, below 90. */
  lemma TxtProgress(k: nat, n: nat)
    requires k < n
    ensures 10.0 <= ChapterProgress(10.0, 80.0, k, n) < 90.0
    ensures k + 1 < n ==> ChapterProgress(10.0, 80.0, k, n) < ChapterProgress(10.0, 80.0, k + 1, n)
  {
    ProgressMonotone(10.0, 80.0, k, n, n);
    if k + 1 < n {
      ProgressMonotone(10.0, 80.0, k, k + 1, n);
    }
  }
}
