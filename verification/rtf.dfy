/** The RTF converter (`RTFConverter.convert`): a fixed prolog that opens
    the document group and declares the font table, one group per piece
    of book text, each escaped with the converter's own `escapeRTF`, and
    the brace that closes the document. */
module Rtf {
  import opened JsText
  import opened Wrappers
  import opened Json
  import opened Markup
  import opened Book

  /** `this.escapeRTF(text)` on a string field of the book. */
  function Escape(s: JsString): JsString
  {
    EscapeRtfLocal(JStr(s))
  }

  const DOCUMENT_WORDS: JsString := Lit("\\rtf1\\ansi\\deff0 ")
  const FONT_TABLE_WORD: JsString := Lit("\\fonttbl ")
  const FONT_ENTRY: JsString := Lit("\\f0 Times New Roman;")
  const DEFAULT_FONT_WORDS: JsString := Lit("\\f0\\fs24 ")
  const TITLE_WORDS: JsString := Lit("\\fs36\\b ")
  const PAR_WORD: JsString := Lit("\\par")
  const PAR_PAR: JsString := Lit("\\par\\par")
  const AUTHOR_WORDS: JsString := Lit("\\fs24 by ")
  const TEXT_WORDS: JsString := Lit("\\fs20 ")
  const PAGE_WORD: JsString := Lit("\\page")
  const VOLUME_WORDS: JsString := Lit("\\fs28\\b ")
  const CHAPTER_WORDS: JsString := Lit("\\fs24\\b ")

  /** `{\fonttbl {\f0 Times New Roman;}}`: the font table group and its
      one font entry group. */
  const FONT_TABLE: JsString := Group(FONT_TABLE_WORD, Group(FONT_ENTRY, [], []), [])

  /** `{\rtf1\ansi\deff0 {\fonttbl {\f0 Times New Roman;}}\f0\fs24 `:
      opens the document group. */
  const PROLOG: JsString := [LBRACE] + DOCUMENT_WORDS + FONT_TABLE + DEFAULT_FONT_WORDS

  /** A group: `{`, control words, text, the closing control words, `}`. */
  function Group(control: JsString, text: JsString, close: JsString): JsString
  {
    [LBRACE] + control + text + close + [RBRACE]
  }

  function TitleGroup(title: JsString): JsString
  {
    Group(TITLE_WORDS, Escape(title), PAR_WORD)
  }

  function AuthorGroup(author: JsString): JsString
  {
    Group(AUTHOR_WORDS, Escape(author), PAR_PAR)
  }

  /** The description group, when there is a description. */
  function DescriptionGroup(description: JsString): JsString
  {
    if description != [] then Group(TEXT_WORDS, Escape(description), PAR_PAR) else []
  }

  /** `{\page}` and the bold volume name. */
  function VolumeGroups(u: (), v: Volume): JsString
  {
    Group(PAGE_WORD, [], []) + Group(VOLUME_WORDS, Escape(v.name), PAR_PAR)
  }

  function ChapterTitleGroup(c: Chapter): JsString
  {
    Group(CHAPTER_WORDS, Escape(c.title), PAR_PAR)
  }

  function ChapterContentGroup(c: Chapter): JsString
  {
    Group(TEXT_WORDS, Escape(c.content), PAR_PAR)
  }

  /** The two `rtf +=` steps of one chapter. */
  function ChapterGroups(u: (), k: nat, v: Volume, c: Chapter): JsString
  {
    ChapterTitleGroup(c) + ChapterContentGroup(c)
  }

  /** The title page: title, author and, when there is one, description. */
  function TitleGroups(book: Book): JsString
  {
    TitleGroup(book.title) + AuthorGroup(book.author) + DescriptionGroup(book.description)
  }

  /** Everything between the prolog and the closing brace. */
  function Body(book: Book): JsString
  {
    TitleGroups(book) + VolumesOut((), book.content, VolumeGroups, ChapterGroups, NoOut)
  }

  /** The text `convert` builds. */
  function RtfText(book: Book): JsString
  {
    PROLOG + Body(book) + [RBRACE]
  }

  /** The `rtf +=` steps of `convert`, the volume and chapter loops among
      them. */
  method Convert(book: Book) returns (rtf: JsString)
    ensures rtf == RtfText(book)
  {
    rtf := PROLOG;
    rtf := rtf + TitleGroup(book.title);
    rtf := rtf + AuthorGroup(book.author);
    if book.description != [] {
      rtf := rtf + Group(TEXT_WORDS, Escape(book.description), PAR_PAR);
    } else {
      assert rtf + [] == rtf;
    }
    AppendAssoc(PROLOG, TitleGroup(book.title), AuthorGroup(book.author));
    AppendAssoc(PROLOG, TitleGroup(book.title) + AuthorGroup(book.author), DescriptionGroup(book.description));
    rtf := Walk((), rtf, book.content, VolumeGroups, ChapterGroups, NoOut);
    AppendAssoc(PROLOG, TitleGroups(book), VolumesOut((), book.content, VolumeGroups, ChapterGroups, NoOut));
    rtf := rtf + [RBRACE];
  }

  // ---------------------------------------------------------------------
  // Group structure
  // ---------------------------------------------------------------------

  /** Reading `s` from group depth `depth` as an RTF reader does: a
      backslash and the unit after it are one symbol, so `\{`, `\}` and
      `\\` neither open nor close a group; `{` opens a group and `}` closes
      the innermost open one. `None` when a `}` finds no open group or the
      text ends in a lone backslash. */
  function Depth(s: JsString, depth: nat): Option<nat>
    decreases |s|
  {
    if s == [] then Some(depth)
    else if s[0] == BACKSLASH then (if |s| == 1 then None else Depth(s[2..], depth))
    else if s[0] == LBRACE then Depth(s[1..], depth + 1)
    else if s[0] == RBRACE then (if depth == 0 then None else Depth(s[1..], depth - 1))
    else Depth(s[1..], depth)
  }

  /** Every group that is opened is closed, and no `}` comes without a
      group to close. */
  predicate Balanced(s: JsString)
  {
    Depth(s, 0) == Some(0)
  }

  /** Reading on after a part that ends well continues at the depth that
      part left. */
  lemma {:induction false} DepthAppend(a: JsString, b: JsString, depth: nat)
    requires Depth(a, depth).Some?
    ensures Depth(a + b, depth) == Depth(b, Depth(a, depth).value)
    decreases |a|
  {
    if a != [] {
      if a[0] == BACKSLASH {
        assert (a + b)[2..] == a[2..] + b;
        DepthAppend(a[2..], b, depth);
      } else if a[0] == LBRACE {
        assert (a + b)[1..] == a[1..] + b;
        DepthAppend(a[1..], b, depth + 1);
      } else if a[0] == RBRACE {
        assert (a + b)[1..] == a[1..] + b;
        DepthAppend(a[1..], b, depth - 1);
      } else {
        assert (a + b)[1..] == a[1..] + b;
        DepthAppend(a[1..], b, depth);
      }
    } else {
      assert a + b == b;
    }
  }

  /** Text with no brace that does not end in a backslash. */
  predicate PlainRun(w: JsString)
  {
    (forall i :: 0 <= i < |w| ==> !IsBrace(w[i])) && (w == [] || w[|w| - 1] != BACKSLASH)
  }

  /** Such text changes no depth. */
  lemma {:induction false} PlainDepth(w: JsString, depth: nat)
    requires PlainRun(w)
    ensures Depth(w, depth) == Some(depth)
    decreases |w|
  {
    if w != [] {
      if w[0] == BACKSLASH {
        PlainDepth(w[2..], depth);
      } else {
        PlainDepth(w[1..], depth);
      }
    }
  }

  /** Two parts that each end at the depth they start at. */
  lemma Neutral2(a: JsString, b: JsString, depth: nat)
    requires Depth(a, depth) == Some(depth) && Depth(b, depth) == Some(depth)
    ensures Depth(a + b, depth) == Some(depth)
  {
    DepthAppend(a, b, depth);
  }

  /** One escaped code unit changes no depth. */
  lemma UnitDepth(c: CodeUnit, depth: nat)
    ensures Depth(RtfBasicUnit(c), depth) == Some(depth)
  {
    var r := RtfBasicUnit(c);
    if c == NEWLINE {
      assert r == PAR;
      assert r[2..] == [0x61, 0x72, 0x20];
      PlainDepth(r[2..], depth);
    } else if c == BACKSLASH || c == LBRACE || c == RBRACE {
      assert r[2..] == [];
    } else {
      assert r[1..] == [];
    }
  }

  /** Escaped text changes no depth: every brace in it is read as part of
      a `\{` or `\}` symbol. */
  lemma {:induction false} EscapeDepth(s: JsString, depth: nat)
    ensures Depth(Escape(s), depth) == Some(depth)
  {
    RtfBasicPerUnit(s);
    FlattenDepth(s, depth);
  }

  lemma {:induction false} FlattenDepth(s: JsString, depth: nat)
    ensures Depth(Flatten(s, RtfBasicUnit), depth) == Some(depth)
    decreases |s|
  {
    if s != [] {
      FlattenDepth(s[..|s| - 1], depth);
      UnitDepth(s[|s| - 1], depth);
      Neutral2(Flatten(s[..|s| - 1], RtfBasicUnit), RtfBasicUnit(s[|s| - 1]), depth);
    }
  }

  /** A group around plain control words and text that changes no depth
      is itself neutral. */
  lemma GroupDepth(control: JsString, text: JsString, close: JsString, depth: nat)
    requires PlainRun(control) && PlainRun(close)
    requires Depth(text, depth + 1) == Some(depth + 1)
    ensures Depth(Group(control, text, close), depth) == Some(depth)
  {
    PlainDepth(control, depth + 1);
    PlainDepth(close, depth + 1);
    DepthAppend([LBRACE], control, depth);
    DepthAppend([LBRACE] + control, text, depth);
    DepthAppend([LBRACE] + control + text, close, depth);
    DepthAppend([LBRACE] + control + text + close, [RBRACE], depth);
  }

  lemma EscapedGroupDepth(control: JsString, s: JsString, close: JsString, depth: nat)
    requires PlainRun(control) && PlainRun(close)
    ensures Depth(Group(control, Escape(s), close), depth) == Some(depth)
  {
    EscapeDepth(s, depth + 1);
    GroupDepth(control, Escape(s), close, depth);
  }

  lemma ChapterDepth(c: Chapter, depth: nat)
    ensures Depth(ChapterGroups((), 0, Volume(Missing, [], []), c), depth) == Some(depth)
  {
    BodyWordsPlain();
    EscapedGroupDepth(CHAPTER_WORDS, c.title, PAR_PAR, depth);
    EscapedGroupDepth(TEXT_WORDS, c.content, PAR_PAR, depth);
    Neutral2(ChapterTitleGroup(c), ChapterContentGroup(c), depth);
  }

  lemma {:induction false} ChaptersDepth(k: nat, v: Volume, chs: seq<Chapter>, depth: nat)
    ensures Depth(ChaptersOut((), k, v, chs, ChapterGroups), depth) == Some(depth)
    decreases |chs|
  {
    if chs != [] {
      var c := chs[|chs| - 1];
      ChaptersDepth(k, v, chs[..|chs| - 1], depth);
      ChapterDepth(c, depth);
      assert ChapterGroups((), k + |chs| - 1, v, c) == ChapterGroups((), 0, Volume(Missing, [], []), c);
      Neutral2(ChaptersOut((), k, v, chs[..|chs| - 1], ChapterGroups), ChapterGroups((), k + |chs| - 1, v, c), depth);
    }
  }

  lemma VolumeDepth(k: nat, v: Volume, depth: nat)
    ensures Depth(VolumeOut((), k, v, VolumeGroups, ChapterGroups, NoOut), depth) == Some(depth)
  {
    BodyWordsPlain();
    GroupDepth(PAGE_WORD, [], [], depth);
    EscapedGroupDepth(VOLUME_WORDS, v.name, PAR_PAR, depth);
    Neutral2(Group(PAGE_WORD, [], []), Group(VOLUME_WORDS, Escape(v.name), PAR_PAR), depth);
    ChaptersDepth(k, v, v.chapters, depth);
    var chapters := ChaptersOut((), k, v, v.chapters, ChapterGroups);
    Neutral2(VolumeGroups((), v), chapters, depth);
    assert NoOut<(), CodeUnit>((), v) == [];
    assert VolumeOut((), k, v, VolumeGroups, ChapterGroups, NoOut) == VolumeGroups((), v) + chapters + [];
    assert VolumeGroups((), v) + chapters + [] == VolumeGroups((), v) + chapters;
  }

  lemma {:induction false} VolumesDepth(vols: seq<Volume>, depth: nat)
    ensures Depth(VolumesOut((), vols, VolumeGroups, ChapterGroups, NoOut), depth) == Some(depth)
    decreases |vols|
  {
    if vols != [] {
      var p := vols[..|vols| - 1];
      VolumesDepth(p, depth);
      VolumeDepth(ChapterTotal(p), vols[|vols| - 1], depth);
      Neutral2(VolumesOut((), p, VolumeGroups, ChapterGroups, NoOut), VolumeOut((), ChapterTotal(p), vols[|vols| - 1], VolumeGroups, ChapterGroups, NoOut), depth);
    }
  }

  lemma TitleGroupsDepth(book: Book, depth: nat)
    ensures Depth(TitleGroups(book), depth) == Some(depth)
  {
    TitleWordsPlain();
    BodyWordsPlain();
    EscapedGroupDepth(TITLE_WORDS, book.title, PAR_WORD, depth);
    EscapedGroupDepth(AUTHOR_WORDS, book.author, PAR_PAR, depth);
    Neutral2(TitleGroup(book.title), AuthorGroup(book.author), depth);
    if book.description != [] {
      EscapedGroupDepth(TEXT_WORDS, book.description, PAR_PAR, depth);
    } else {
      assert TitleGroup(book.title) + AuthorGroup(book.author) + [] == TitleGroup(book.title) + AuthorGroup(book.author);
    }
    Neutral2(TitleGroup(book.title) + AuthorGroup(book.author), DescriptionGroup(book.description), depth);
  }

  /** The control words between the braces hold no brace and do not end
      in a backslash. */
  lemma PrologWordsPlain()
    ensures PlainRun(DOCUMENT_WORDS) && PlainRun(FONT_TABLE_WORD) && PlainRun(DEFAULT_FONT_WORDS)
  {
  }

  lemma FontEntryPlain()
    ensures PlainRun(FONT_ENTRY)
  {
  }

  lemma TitleWordsPlain()
    ensures PlainRun(TITLE_WORDS) && PlainRun(PAR_WORD) && PlainRun(PAR_PAR) && PlainRun(AUTHOR_WORDS)
  {
  }

  lemma BodyWordsPlain()
    ensures PlainRun(TEXT_WORDS) && PlainRun(PAGE_WORD) && PlainRun(VOLUME_WORDS) && PlainRun(CHAPTER_WORDS) && PlainRun(PAR_PAR)
  {
  }

  /** The prolog leaves the document group open: its font table group and
      font entry group are closed again. */
  lemma PrologDepth()
    ensures Depth(PROLOG, 0) == Some(1)
  {
    PrologWordsPlain();
    FontEntryPlain();
    GroupDepth(FONT_ENTRY, [], [], 2);
    GroupDepth(FONT_TABLE_WORD, Group(FONT_ENTRY, [], []), [], 1);
    PlainDepth(DOCUMENT_WORDS, 1);
    PlainDepth(DEFAULT_FONT_WORDS, 1);
    DepthAppend([LBRACE], DOCUMENT_WORDS, 0);
    DepthAppend([LBRACE] + DOCUMENT_WORDS, FONT_TABLE, 0);
    DepthAppend([LBRACE] + DOCUMENT_WORDS + FONT_TABLE, DEFAULT_FONT_WORDS, 0);
  }

  /** The groups of the whole document are balanced: the prolog opens the
      document group, everything after it is escaped text inside closed
      groups, and the final `}` closes the document group. */
  lemma RtfBalanced(book: Book)
    ensures Balanced(RtfText(book))
  {
    PrologDepth();
    TitleGroupsDepth(book, 1);
    VolumesDepth(book.content, 1);
    Neutral2(TitleGroups(book), VolumesOut((), book.content, VolumeGroups, ChapterGroups, NoOut), 1);
    DepthAppend(PROLOG, Body(book), 0);
    DepthAppend(PROLOG + Body(book), [RBRACE], 0);
  }

  // ---------------------------------------------------------------------
  // Order
  // ---------------------------------------------------------------------

  /** The text opens with the prolog and the title and author groups, and
      ends with the closing brace. */
  lemma RtfFrame(book: Book)
    ensures PROLOG + TitleGroup(book.title) + AuthorGroup(book.author) <= RtfText(book)
    ensures RtfText(book)[|RtfText(book)| - 1] == RBRACE
  {
    var front := PROLOG + TitleGroup(book.title) + AuthorGroup(book.author);
    PrefixSelf(front, DescriptionGroup(book.description));
    AppendAssoc(PROLOG, TitleGroup(book.title) + AuthorGroup(book.author), DescriptionGroup(book.description));
    AppendAssoc(PROLOG, TitleGroup(book.title), AuthorGroup(book.author));
    PrefixTrans(front, PROLOG + TitleGroups(book), VolumesOut((), book.content, VolumeGroups, ChapterGroups, NoOut));
    AppendAssoc(PROLOG, TitleGroups(book), VolumesOut((), book.content, VolumeGroups, ChapterGroups, NoOut));
    PrefixTrans(front, PROLOG + Body(book), [RBRACE]);
  }

  /** The title group of chapter `j` of volume `i` and then its content
      group come right after everything produced for the volumes and
      chapters before it. */
  lemma ChapterInOrder(book: Book, i: nat, j: nat)
    requires i < |book.content| && j < |book.content[i].chapters|
    ensures var vols := book.content;
      var c := vols[i].chapters[j];
      var k := ChapterTotal(vols[..i]);
      PROLOG + TitleGroups(book)
      + (VolumesOut((), vols[..i], VolumeGroups, ChapterGroups, NoOut) + VolumeGroups((), vols[i])
         + ChaptersOut((), k, vols[i], vols[i].chapters[..j], ChapterGroups))
      + ChapterTitleGroup(c) + ChapterContentGroup(c)
      <= RtfText(book)
  {
    var vols := book.content;
    var c := vols[i].chapters[j];
    var k := ChapterTotal(vols[..i]);
    var front := PROLOG + TitleGroups(book);
    var before := VolumesOut((), vols[..i], VolumeGroups, ChapterGroups, NoOut) + VolumeGroups((), vols[i])
      + ChaptersOut((), k, vols[i], vols[i].chapters[..j], ChapterGroups);
    var x := ChapterGroups((), k + j, vols[i], c);
    var whole := VolumesOut((), vols, VolumeGroups, ChapterGroups, NoOut);
    VolumesPrefix((), vols, i, j, VolumeGroups, ChapterGroups, NoOut);
    assert OutThrough((), vols, i, j, VolumeGroups, ChapterGroups, NoOut) == before + x;
    PrefixFront(front, before + x, whole);
    AppendAssoc(front, before, x);
    AppendAssoc(front + before, ChapterTitleGroup(c), ChapterContentGroup(c));
    AppendAssoc(PROLOG, TitleGroups(book), whole);
    PrefixTrans(front + before + x, PROLOG + Body(book), [RBRACE]);
  }
}
