/** The in-memory book every converter reads (`bookData` after
    validation), the traversal every converter shares (`forEach` over the
    volumes, then over each volume's chapters), and the small helpers the
    converters have in common: index rendering, download file names and
    progress percentages. */
module Book {
  import opened JsText
  import opened Wrappers

  /** A `volume_index` or `chapter_index` as a template literal renders
      it: an integer, or `undefined` when the key is missing. */
  datatype Index = Num(n: int) | Missing

  function IndexText(i: Index): (r: JsString)
    ensures r != []
  {
    match i
    case Num(n) => IntToDecimal(n)
    case Missing => Lit("undefined")
  }

  datatype Chapter = Chapter(index: Index, title: JsString, content: JsString)

  datatype Volume = Volume(index: Index, name: JsString, chapters: seq<Chapter>)

  /** `description` and `cover` are empty when absent: both are only ever
      tested for truthiness or defaulted to `''`. */
  datatype Book = Book(title: JsString, author: JsString, description: JsString, cover: JsString, content: seq<Volume>)

  /** `coverImageData`: the data URL read from the cover file, the file's
      MIME type and the extension taken from it. */
  datatype CoverImage = CoverImage(data: JsString, mimeType: JsString, extension: JsString)

  /** `bookData.cover && coverImageData`: the cover is written only when
      the book names one and its image was loaded. */
  predicate HasCover(book: Book, image: Option<CoverImage>)
  {
    book.cover != [] && image.Some?
  }

  // ---------------------------------------------------------------------
  // Traversal order
  // ---------------------------------------------------------------------

  /** `content.reduce((total, volume) => total + volume.chapters.length, 0)` */
  function ChapterTotal(vols: seq<Volume>): nat
  {
    if vols == [] then 0 else ChapterTotal(vols[..|vols| - 1]) + |vols[|vols| - 1].chapters|
  }

  /** The chapters `chs` of volume `v`, each paired with `v`. */
  function Pairs(v: Volume, chs: seq<Chapter>): (r: seq<(Volume, Chapter)>)
    ensures |r| == |chs|
  {
    if chs == [] then [] else Pairs(v, chs[..|chs| - 1]) + [(v, chs[|chs| - 1])]
  }

  /** Every chapter with its volume, volumes in order and chapters in
      order within each volume. */
  function Traversal(vols: seq<Volume>): (r: seq<(Volume, Chapter)>)
    ensures |r| == ChapterTotal(vols)
  {
    if vols == [] then []
    else Traversal(vols[..|vols| - 1]) + Pairs(vols[|vols| - 1], vols[|vols| - 1].chapters)
  }

  // ---------------------------------------------------------------------
  // The nested forEach: volume text, then chapter text per chapter
  // ---------------------------------------------------------------------

  /** The output of chapters `chs` of volume `v`, the first of them being
      chapter number `k` (0-based) of the whole book. */
  function ChaptersOut<C, T>(ctx: C, k: nat, v: Volume, chs: seq<Chapter>, ch: (C, nat, Volume, Chapter) -> seq<T>): seq<T>
  {
    if chs == [] then []
    else ChaptersOut(ctx, k, v, chs[..|chs| - 1], ch) + ch(ctx, k + |chs| - 1, v, chs[|chs| - 1])
  }

  /** The output of one volume whose first chapter is chapter number `k`. */
  function VolumeOut<C, T>(ctx: C, k: nat, v: Volume, head: (C, Volume) -> seq<T>, ch: (C, nat, Volume, Chapter) -> seq<T>, tail: (C, Volume) -> seq<T>): seq<T>
  {
    head(ctx, v) + ChaptersOut(ctx, k, v, v.chapters, ch) + tail(ctx, v)
  }

  /** The output of the nested `forEach` over `vols`. */
  function VolumesOut<C, T>(ctx: C, vols: seq<Volume>, head: (C, Volume) -> seq<T>, ch: (C, nat, Volume, Chapter) -> seq<T>, tail: (C, Volume) -> seq<T>): seq<T>
  {
    if vols == [] then []
    else
      var p := vols[..|vols| - 1];
      VolumesOut(ctx, p, head, ch, tail) + VolumeOut(ctx, ChapterTotal(p), vols[|vols| - 1], head, ch, tail)
  }

  /** The inner `volume.chapters.forEach`: appends each chapter's output
      in order while counting chapters. */
  method WalkVolume<C, T>(ctx: C, acc: seq<T>, k: nat, v: Volume, head: (C, Volume) -> seq<T>, ch: (C, nat, Volume, Chapter) -> seq<T>, tail: (C, Volume) -> seq<T>)
    returns (out: seq<T>)
    ensures out == acc + VolumeOut(ctx, k, v, head, ch, tail)
  {
    out := acc + head(ctx, v);
    var j := 0;
    while j < |v.chapters|
      invariant j <= |v.chapters|
      invariant out == acc + head(ctx, v) + ChaptersOut(ctx, k, v, v.chapters[..j], ch)
    {
      assert v.chapters[..j + 1][..j] == v.chapters[..j];
      AppendAssoc(acc + head(ctx, v), ChaptersOut(ctx, k, v, v.chapters[..j], ch), ch(ctx, k + j, v, v.chapters[j]));
      out := out + ch(ctx, k + j, v, v.chapters[j]);
      j := j + 1;
    }
    assert v.chapters[..j] == v.chapters;
    out := out + tail(ctx, v);
  }

  /** The outer `content.forEach`, appending to `acc`. */
  method Walk<C, T>(ctx: C, acc: seq<T>, vols: seq<Volume>, head: (C, Volume) -> seq<T>, ch: (C, nat, Volume, Chapter) -> seq<T>, tail: (C, Volume) -> seq<T>)
    returns (out: seq<T>)
    ensures out == acc + VolumesOut(ctx, vols, head, ch, tail)
  {
    out := acc;
    var i := 0;
    var k := 0;
    while i < |vols|
      invariant i <= |vols|
      invariant k == ChapterTotal(vols[..i])
      invariant out == acc + VolumesOut(ctx, vols[..i], head, ch, tail)
    {
      assert vols[..i + 1][..i] == vols[..i];
      AppendAssoc(acc, VolumesOut(ctx, vols[..i], head, ch, tail), VolumeOut(ctx, k, vols[i], head, ch, tail));
      out := WalkVolume(ctx, out, k, vols[i], head, ch, tail);
      k := k + |vols[i].chapters|;
      i := i + 1;
    }
    assert vols[..i] == vols;
  }

  /** The inner `volume.chapters.forEach` of a loop that appends to two
      accumulators per chapter, the volumes adding nothing themselves. */
  method WalkVolumeTwice<C, T>(ctx: C, acc1: seq<T>, acc2: seq<T>, k: nat, v: Volume, ch1: (C, nat, Volume, Chapter) -> seq<T>, ch2: (C, nat, Volume, Chapter) -> seq<T>)
    returns (out1: seq<T>, out2: seq<T>)
    ensures out1 == acc1 + ChaptersOut(ctx, k, v, v.chapters, ch1)
    ensures out2 == acc2 + ChaptersOut(ctx, k, v, v.chapters, ch2)
  {
    out1, out2 := acc1, acc2;
    var j := 0;
    while j < |v.chapters|
      invariant j <= |v.chapters|
      invariant out1 == acc1 + ChaptersOut(ctx, k, v, v.chapters[..j], ch1)
      invariant out2 == acc2 + ChaptersOut(ctx, k, v, v.chapters[..j], ch2)
    {
      assert v.chapters[..j + 1][..j] == v.chapters[..j];
      AppendAssoc(acc1, ChaptersOut(ctx, k, v, v.chapters[..j], ch1), ch1(ctx, k + j, v, v.chapters[j]));
      AppendAssoc(acc2, ChaptersOut(ctx, k, v, v.chapters[..j], ch2), ch2(ctx, k + j, v, v.chapters[j]));
      out1 := out1 + ch1(ctx, k + j, v, v.chapters[j]);
      out2 := out2 + ch2(ctx, k + j, v, v.chapters[j]);
      j := j + 1;
    }
    assert v.chapters[..j] == v.chapters;
  }

  /** The outer `content.forEach` of a loop with two accumulators. */
  method WalkTwice<C, T>(ctx: C, acc1: seq<T>, acc2: seq<T>, vols: seq<Volume>, ch1: (C, nat, Volume, Chapter) -> seq<T>, ch2: (C, nat, Volume, Chapter) -> seq<T>)
    returns (out1: seq<T>, out2: seq<T>)
    ensures out1 == acc1 + VolumesOut(ctx, vols, NoOut, ch1, NoOut)
    ensures out2 == acc2 + VolumesOut(ctx, vols, NoOut, ch2, NoOut)
  {
    out1, out2 := acc1, acc2;
    var i := 0;
    var k := 0;
    while i < |vols|
      invariant i <= |vols|
      invariant k == ChapterTotal(vols[..i])
      invariant out1 == acc1 + VolumesOut(ctx, vols[..i], NoOut, ch1, NoOut)
      invariant out2 == acc2 + VolumesOut(ctx, vols[..i], NoOut, ch2, NoOut)
    {
      BareVolumesStep(ctx, vols, i, ch1);
      BareVolumesStep(ctx, vols, i, ch2);
      ghost var before1, before2 := VolumesOut(ctx, vols[..i], NoOut, ch1, NoOut), VolumesOut(ctx, vols[..i], NoOut, ch2, NoOut);
      out1, out2 := WalkVolumeTwice(ctx, out1, out2, k, vols[i], ch1, ch2);
      AppendAssoc(acc1, before1, ChaptersOut(ctx, k, vols[i], vols[i].chapters, ch1));
      AppendAssoc(acc2, before2, ChaptersOut(ctx, k, vols[i], vols[i].chapters, ch2));
      k := k + |vols[i].chapters|;
      i := i + 1;
    }
    assert vols[..i] == vols;
  }

  /** One more volume, adding nothing itself, adds its chapters' output. */
  lemma BareVolumesStep<C, T>(ctx: C, vols: seq<Volume>, i: nat, ch: (C, nat, Volume, Chapter) -> seq<T>)
    requires i < |vols|
    ensures VolumesOut(ctx, vols[..i + 1], NoOut, ch, NoOut)
      == VolumesOut(ctx, vols[..i], NoOut, ch, NoOut) + ChaptersOut(ctx, ChapterTotal(vols[..i]), vols[i], vols[i].chapters, ch)
    ensures ChapterTotal(vols[..i + 1]) == ChapterTotal(vols[..i]) + |vols[i].chapters|
  {
    assert vols[..i + 1][..i] == vols[..i];
  }

  /** One more chapter of a volume appends that chapter's output. */
  lemma ChaptersStep<C, T>(ctx: C, k: nat, v: Volume, j: nat, ch: (C, nat, Volume, Chapter) -> seq<T>)
    requires j < |v.chapters|
    ensures ChaptersOut(ctx, k, v, v.chapters[..j + 1], ch) == ChaptersOut(ctx, k, v, v.chapters[..j], ch) + ch(ctx, k + j, v, v.chapters[j])
  {
    assert v.chapters[..j + 1][..j] == v.chapters[..j];
  }

  /** The output of chapter `j` of `chs` comes right after the output of
      the chapters before it. */
  lemma {:induction false} ChaptersPrefix<C, T>(ctx: C, k: nat, v: Volume, chs: seq<Chapter>, j: nat, ch: (C, nat, Volume, Chapter) -> seq<T>)
    requires j < |chs|
    ensures ChaptersOut(ctx, k, v, chs[..j], ch) + ch(ctx, k + j, v, chs[j]) <= ChaptersOut(ctx, k, v, chs, ch)
    decreases |chs|
  {
    var front := chs[..|chs| - 1];
    if j == |chs| - 1 {
      assert front == chs[..j];
    } else {
      ChaptersPrefix(ctx, k, v, front, j, ch);
      assert front[..j] == chs[..j] && front[j] == chs[j];
    }
  }

  /** Everything the nested `forEach` over `vols` produces up to and
      including chapter `j` of volume `i`. */
  function OutThrough<C, T>(ctx: C, vols: seq<Volume>, i: nat, j: nat, head: (C, Volume) -> seq<T>, ch: (C, nat, Volume, Chapter) -> seq<T>, tail: (C, Volume) -> seq<T>): seq<T>
    requires i < |vols| && j < |vols[i].chapters|
  {
    var k := ChapterTotal(vols[..i]);
    VolumesOut(ctx, vols[..i], head, ch, tail) + head(ctx, vols[i])
    + ChaptersOut(ctx, k, vols[i], vols[i].chapters[..j], ch) + ch(ctx, k + j, vols[i], vols[i].chapters[j])
  }

  /** The output of chapter `j` of volume `i` comes right after the output
      of every volume before `i`, the head of volume `i` and the chapters
      of volume `i` before `j`: chapters come out in traversal order. */
  lemma {:induction false} VolumesPrefix<C, T>(ctx: C, vols: seq<Volume>, i: nat, j: nat, head: (C, Volume) -> seq<T>, ch: (C, nat, Volume, Chapter) -> seq<T>, tail: (C, Volume) -> seq<T>)
    requires i < |vols| && j < |vols[i].chapters|
    ensures OutThrough(ctx, vols, i, j, head, ch, tail) <= VolumesOut(ctx, vols, head, ch, tail)
    decreases |vols|
  {
    if i == |vols| - 1 {
      LastVolumePrefix(ctx, vols, j, head, ch, tail);
    } else {
      var p := vols[..|vols| - 1];
      VolumesPrefix(ctx, p, i, j, head, ch, tail);
      EarlierVolumePrefix(ctx, vols, i, j, head, ch, tail);
    }
  }

  /** The same, inside a document that wraps the traversal between a
      fixed `front` and `back`. */
  lemma WrappedPrefix<C, T>(front: seq<T>, back: seq<T>, ctx: C, vols: seq<Volume>, i: nat, j: nat, head: (C, Volume) -> seq<T>, ch: (C, nat, Volume, Chapter) -> seq<T>, tail: (C, Volume) -> seq<T>)
    requires i < |vols| && j < |vols[i].chapters|
    ensures var v := vols[i];
      var k := ChapterTotal(vols[..i]);
      front
      + (VolumesOut(ctx, vols[..i], head, ch, tail) + head(ctx, v) + ChaptersOut(ctx, k, v, v.chapters[..j], ch))
      + ch(ctx, k + j, v, v.chapters[j])
      <= front + VolumesOut(ctx, vols, head, ch, tail) + back
  {
    var v := vols[i];
    var k := ChapterTotal(vols[..i]);
    var before := VolumesOut(ctx, vols[..i], head, ch, tail) + head(ctx, v) + ChaptersOut(ctx, k, v, v.chapters[..j], ch);
    var x := ch(ctx, k + j, v, v.chapters[j]);
    var whole := VolumesOut(ctx, vols, head, ch, tail);
    VolumesPrefix(ctx, vols, i, j, head, ch, tail);
    assert OutThrough(ctx, vols, i, j, head, ch, tail) == before + x;
    PrefixFront(front, before + x, whole);
    AppendAssoc(front, before, x);
    PrefixSelf(front + whole, back);
    PrefixTransitive(front + before + x, front + whole, front + whole + back);
  }

  lemma LastVolumePrefix<C, T>(ctx: C, vols: seq<Volume>, j: nat, head: (C, Volume) -> seq<T>, ch: (C, nat, Volume, Chapter) -> seq<T>, tail: (C, Volume) -> seq<T>)
    requires vols != [] && j < |vols[|vols| - 1].chapters|
    ensures OutThrough(ctx, vols, |vols| - 1, j, head, ch, tail) <= VolumesOut(ctx, vols, head, ch, tail)
  {
    var p, v := vols[..|vols| - 1], vols[|vols| - 1];
    var before := VolumesOut(ctx, p, head, ch, tail);
    var k := ChapterTotal(p);
    assert VolumesOut(ctx, vols, head, ch, tail) == before + (head(ctx, v) + ChaptersOut(ctx, k, v, v.chapters, ch) + tail(ctx, v));
    ChaptersPrefix(ctx, k, v, v.chapters, j, ch);
    var x := ChaptersOut(ctx, k, v, v.chapters[..j], ch) + ch(ctx, k + j, v, v.chapters[j]);
    PrefixExtend(before, head(ctx, v), x, ChaptersOut(ctx, k, v, v.chapters, ch), tail(ctx, v));
    AppendAssoc(before + head(ctx, v), ChaptersOut(ctx, k, v, v.chapters[..j], ch), ch(ctx, k + j, v, v.chapters[j]));
    AppendAssoc(before, head(ctx, v), x);
  }

  lemma EarlierVolumePrefix<C, T>(ctx: C, vols: seq<Volume>, i: nat, j: nat, head: (C, Volume) -> seq<T>, ch: (C, nat, Volume, Chapter) -> seq<T>, tail: (C, Volume) -> seq<T>)
    requires i < |vols| - 1 && j < |vols[i].chapters|
    requires OutThrough(ctx, vols[..|vols| - 1], i, j, head, ch, tail) <= VolumesOut(ctx, vols[..|vols| - 1], head, ch, tail)
    ensures OutThrough(ctx, vols, i, j, head, ch, tail) <= VolumesOut(ctx, vols, head, ch, tail)
  {
    var p := vols[..|vols| - 1];
    assert p[..i] == vols[..i] && p[i] == vols[i];
    assert OutThrough(ctx, p, i, j, head, ch, tail) == OutThrough(ctx, vols, i, j, head, ch, tail);
    PrefixTrans(OutThrough(ctx, vols, i, j, head, ch, tail), VolumesOut(ctx, p, head, ch, tail), VolumeOut(ctx, ChapterTotal(p), vols[|vols| - 1], head, ch, tail));
  }

  /** The output of one chapter callback per traversal position: what the
      nested `forEach` produces when volumes themselves add nothing. */
  function IndexedOut<C, T>(ctx: C, k: nat, tr: seq<(Volume, Chapter)>, ch: (C, nat, Volume, Chapter) -> seq<T>): seq<T>
  {
    if tr == [] then []
    else IndexedOut(ctx, k, tr[..|tr| - 1], ch) + ch(ctx, k + |tr| - 1, tr[|tr| - 1].0, tr[|tr| - 1].1)
  }

  lemma {:induction false} IndexedOutAppend<C, T>(ctx: C, k: nat, a: seq<(Volume, Chapter)>, b: seq<(Volume, Chapter)>, ch: (C, nat, Volume, Chapter) -> seq<T>)
    ensures IndexedOut(ctx, k, a + b, ch) == IndexedOut(ctx, k, a, ch) + IndexedOut(ctx, k + |a|, b, ch)
    decreases |b|
  {
    if b == [] {
      assert a + b == a;
    } else {
      assert (a + b)[..|a + b| - 1] == a + b[..|b| - 1];
      IndexedOutAppend(ctx, k, a, b[..|b| - 1], ch);
    }
  }

  lemma {:induction false} ChaptersOutIndexed<C, T>(ctx: C, k: nat, v: Volume, chs: seq<Chapter>, ch: (C, nat, Volume, Chapter) -> seq<T>)
    ensures ChaptersOut(ctx, k, v, chs, ch) == IndexedOut(ctx, k, Pairs(v, chs), ch)
    decreases |chs|
  {
    if chs != [] {
      var front := Pairs(v, chs[..|chs| - 1]);
      ChaptersOutIndexed(ctx, k, v, chs[..|chs| - 1], ch);
      assert (front + [(v, chs[|chs| - 1])])[..|chs| - 1] == front;
    }
  }

  /** The volume callback of a walk in which volumes add nothing. */
  function NoOut<C, T>(ctx: C, v: Volume): seq<T>
  {
    []
  }

  /** When volumes add nothing of their own, the nested `forEach` is one
      chapter callback per traversal position, numbered 0, 1, 2, … */
  lemma {:induction false} WalkIsIndexed<C, T>(ctx: C, vols: seq<Volume>, ch: (C, nat, Volume, Chapter) -> seq<T>)
    ensures VolumesOut(ctx, vols, NoOut, ch, NoOut) == IndexedOut(ctx, 0, Traversal(vols), ch)
    decreases |vols|
  {
    if vols != [] {
      WalkIsIndexed(ctx, vols[..|vols| - 1], ch);
      WalkIsIndexedStep(ctx, vols, ch);
    }
  }

  lemma WalkIsIndexedStep<C, T>(ctx: C, vols: seq<Volume>, ch: (C, nat, Volume, Chapter) -> seq<T>)
    requires vols != []
    requires var p := vols[..|vols| - 1];
      VolumesOut(ctx, p, NoOut, ch, NoOut) == IndexedOut(ctx, 0, Traversal(p), ch)
    ensures VolumesOut(ctx, vols, NoOut, ch, NoOut) == IndexedOut(ctx, 0, Traversal(vols), ch)
  {
    var p, v := vols[..|vols| - 1], vols[|vols| - 1];
    var k := ChapterTotal(p);
    var front, back := Traversal(p), Pairs(v, v.chapters);
    assert |front| == k;
    BareVolumeIndexed(ctx, k, v, ch);
    IndexedOutAppend(ctx, 0, front, back, ch);
    calc {
      VolumesOut(ctx, vols, NoOut, ch, NoOut);
      VolumesOut(ctx, p, NoOut, ch, NoOut) + VolumeOut(ctx, k, v, NoOut, ch, NoOut);
      IndexedOut(ctx, 0, front, ch) + IndexedOut(ctx, k, back, ch);
      IndexedOut(ctx, 0, front + back, ch);
    }
  }

  /** One volume that adds nothing of its own, as numbered chapter callbacks. */
  lemma BareVolumeIndexed<C, T>(ctx: C, k: nat, v: Volume, ch: (C, nat, Volume, Chapter) -> seq<T>)
    ensures VolumeOut(ctx, k, v, NoOut, ch, NoOut) == IndexedOut(ctx, k, Pairs(v, v.chapters), ch)
  {
    ChaptersOutIndexed(ctx, k, v, v.chapters, ch);
  }

  /** An output of exactly one element per chapter is the sequence of
      those elements in traversal order, numbered 0, 1, 2, … */
  lemma {:induction false} IndexedOutSingletons<C, T>(ctx: C, k: nat, tr: seq<(Volume, Chapter)>, ch: (C, nat, Volume, Chapter) -> seq<T>)
    requires forall n, v, c :: |ch(ctx, n, v, c)| == 1
    ensures |IndexedOut(ctx, k, tr, ch)| == |tr|
    ensures forall j :: 0 <= j < |tr| ==> IndexedOut(ctx, k, tr, ch)[j] == ch(ctx, k + j, tr[j].0, tr[j].1)[0]
    decreases |tr|
  {
    if tr != [] {
      IndexedOutSingletons(ctx, k, tr[..|tr| - 1], ch);
    }
  }

  /** What every call of `ch` produces holds of the whole output. */
  lemma {:induction false} IndexedAll<C, T>(ctx: C, k: nat, tr: seq<(Volume, Chapter)>, ch: (C, nat, Volume, Chapter) -> seq<T>, p: T -> bool)
    requires forall j: nat, v: Volume, c: Chapter, t: T :: t in ch(ctx, j, v, c) ==> p(t)
    ensures forall t :: t in IndexedOut(ctx, k, tr, ch) ==> p(t)
    decreases |tr|
  {
    if tr != [] {
      IndexedAll(ctx, k, tr[..|tr| - 1], ch, p);
    }
  }

  // ---------------------------------------------------------------------
  // Download names
  // ---------------------------------------------------------------------

  predicate IsAsciiAlnum(u: CodeUnit) { IsDigit(u) || IsAsciiLower(u) || IsAsciiUpper(u) }

  predicate IsStemUnit(u: CodeUnit) { IsDigit(u) || IsAsciiLower(u) || u == UNDERSCORE }

  /** One unit of `title.replace(/[^a-z0-9]/gi, '_').toLowerCase()`. */
  function StemUnit(u: CodeUnit): CodeUnit
  {
    if IsAsciiUpper(u) then u + 0x20 else if IsAsciiAlnum(u) then u else UNDERSCORE
  }

  /** `title.replace(/[^a-z0-9]/gi, '_').toLowerCase()`: the replace leaves
      only ASCII letters and digits besides `_`, so lower-casing them is
      ASCII lower-casing. */
  function FileStem(title: JsString): (r: JsString)
    ensures |r| == |title|
    ensures forall i :: 0 <= i < |r| ==> r[i] == StemUnit(title[i])
  {
    seq(|title|, i requires 0 <= i < |title| => StemUnit(title[i]))
  }

  /** The stem has the title's length, matches `[a-z0-9_]*`, keeps every
      ASCII letter (lower-cased) and digit in place, and is its own stem. */
  lemma FileStemSpec(title: JsString)
    ensures |FileStem(title)| == |title|
    ensures forall i :: 0 <= i < |title| ==> IsStemUnit(FileStem(title)[i])
    ensures forall i :: 0 <= i < |title| ==> (FileStem(title)[i] == UNDERSCORE <==> !IsAsciiAlnum(title[i]) || title[i] == UNDERSCORE)
    ensures FileStem(FileStem(title)) == FileStem(title)
  {
  }

  /** The name every single-file download gets: the file stem of the
      title followed by the extension with its dot (`.epub`, `.azw3`,
      `.mobi`, `.azw`, `.txt`, `.rtf` or `.pdf`). */
  function DownloadName(title: JsString, extension: JsString): (r: JsString)
    ensures |r| == |title| + |extension|
    ensures r[..|title|] == FileStem(title) && r[|title|..] == extension
    ensures forall i :: 0 <= i < |title| ==> IsStemUnit(r[i])
  {
    FileStem(title) + extension
  }

  // ---------------------------------------------------------------------
  // Progress
  // ---------------------------------------------------------------------

  /** `base + (done / total) * span`, the percentage a converter reports
      in its chapter loop. */
  function ChapterProgress(base: real, span: real, done: nat, total: nat): real
    requires total > 0
  {
    base + (done as real / total as real) * span
  }

  /** With a positive span the reported percentage grows strictly with
      every chapter and stays between `base` and `base + span`. */
  lemma ProgressMonotone(base: real, span: real, d1: nat, d2: nat, total: nat)
    requires span > 0.0 && d1 < d2 <= total
    ensures base <= ChapterProgress(base, span, d1, total) < ChapterProgress(base, span, d2, total) <= base + span
  {
    var t := total as real;
    var q1, q2 := d1 as real / t, d2 as real / t;
    FractionOrder(d1 as real, d2 as real, t);
    ScaleOrder(q1, q2, span);
  }

  /** `0 <= a/t < b/t <= 1` for `0 <= a < b <= t`. */
  lemma FractionOrder(a: real, b: real, t: real)
    requires 0.0 <= a < b <= t
    ensures 0.0 <= a / t < b / t <= 1.0
  {
    var qa, qb := a / t, b / t;
    assert qa * t == a && qb * t == b;
    Sign(qa, t);
    Sign(qb - qa, t);
    Sign(1.0 - qb, t);
  }

  /** `0 <= x < y <= 1` and `s > 0` give `0 <= x*s < y*s <= s`. */
  lemma ScaleOrder(x: real, y: real, s: real)
    requires 0.0 <= x < y <= 1.0 && s > 0.0
    ensures 0.0 <= x * s < y * s <= s
  {
    Sign(x, s);
    Sign(y - x, s);
    Sign(1.0 - y, s);
  }

  /** The sign of a product with a positive factor. */
  lemma Sign(x: real, t: real)
    requires t > 0.0
    ensures x * t > 0.0 <==> x > 0.0
    ensures x * t >= 0.0 <==> x >= 0.0
  {
  }
}
