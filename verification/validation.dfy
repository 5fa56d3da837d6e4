/** `validateBookData` (script.js): the structural check of a parsed book
    that collects every defect before failing. */
module Validation {
  import opened JsText
  import opened Wrappers
  import opened Json

  /** One pushed error message; volume and chapter numbers are 1-based. */
  datatype Defect =
    | BadTitle
    | BadAuthor
    | BadContent
    | BadVolumeName(volume: nat)
    | BadChapters(volume: nat)
    | BadChapterTitle(volume: nat, chapter: nat)
    | BadChapterContent(volume: nat, chapter: nat)

  /** How a call ends: it returns, it throws the collected defects, or a
      property read on `null` throws a TypeError first. */
  datatype Verdict = Valid | Invalid(defects: seq<Defect>) | TypeError

  const TITLE: JsString := Lit("title")
  const AUTHOR: JsString := Lit("author")
  const CONTENT: JsString := Lit("content")
  const VOLUME_NAME: JsString := Lit("volume_name")
  const CHAPTERS: JsString := Lit("chapters")
  const CHAPTER_TITLE: JsString := Lit("chapter_title")
  const CHAPTER_CONTENT: JsString := Lit("chapter_content")

  /** The volumes `forEach` visits: the items of `content` when it is an array. */
  function Volumes(data: Json): seq<Json>
  {
    var c := Prop(data, CONTENT);
    if IsArray(c) then c.value.items else []
  }

  /** The chapters visited for one volume: the items of `chapters` when it is an array. */
  function ChaptersOf(vol: Json): seq<Json>
  {
    var c := Prop(vol, CHAPTERS);
    if IsArray(c) then c.value.items else []
  }

  /** None of the first `j` chapters `chs` is `null`. */
  predicate NoNullUpTo(chs: seq<Json>, j: nat)
    requires j <= |chs|
  {
    j == 0 || (NoNullUpTo(chs, j - 1) && chs[j - 1] != JNull)
  }

  /** Reading a property of a `null` volume, or of a `null` chapter of a
      volume whose `chapters` is an array, throws. */
  predicate VolumeThrows(vol: Json)
  {
    vol == JNull || !NoNullUpTo(ChaptersOf(vol), |ChaptersOf(vol)|)
  }

  /** None of the first `i` volumes `vols` throws. */
  predicate NoThrowUpTo(vols: seq<Json>, i: nat)
    requires i <= |vols|
  {
    i == 0 || (NoThrowUpTo(vols, i - 1) && !VolumeThrows(vols[i - 1]))
  }

  predicate Throws(data: Json)
  {
    data == JNull || !NoThrowUpTo(Volumes(data), |Volumes(data)|)
  }

  // ---------------------------------------------------------------------
  // The defects, pushed in the order of the nested forEach loops
  // ---------------------------------------------------------------------

  /** `if (!ok) errors.push(d)` */
  function PushUnless(errors: seq<Defect>, ok: bool, d: Defect): seq<Defect>
  {
    if ok then errors else errors + [d]
  }

  /** The three top-level checks, from an empty list. */
  function TopDefects(data: Json): seq<Defect>
  {
    var e := PushUnless([], IsNonEmptyString(Prop(data, TITLE)), BadTitle);
    var e := PushUnless(e, IsNonEmptyString(Prop(data, AUTHOR)), BadAuthor);
    PushUnless(e, IsArray(Prop(data, CONTENT)), BadContent)
  }

  /** The inner `forEach` body for chapter number `c` of volume number `v`. */
  function ChapterChecks(errors: seq<Defect>, ch: Json, v: nat, c: nat): seq<Defect>
  {
    var e := PushUnless(errors, IsNonEmptyString(Prop(ch, CHAPTER_TITLE)), BadChapterTitle(v, c));
    PushUnless(e, IsNonEmptyString(Prop(ch, CHAPTER_CONTENT)), BadChapterContent(v, c))
  }

  /** The inner `forEach` over the first `j` chapters of `chs`, numbered 1..j. */
  function ChaptersChecks(errors: seq<Defect>, chs: seq<Json>, v: nat, j: nat): seq<Defect>
    requires j <= |chs|
  {
    if j == 0 then errors
    else ChapterChecks(ChaptersChecks(errors, chs, v, j - 1), chs[j - 1], v, j)
  }

  /** The outer `forEach` body for volume number `v`. */
  function VolumeChecks(errors: seq<Defect>, vol: Json, v: nat): seq<Defect>
  {
    var e := PushUnless(errors, IsNonEmptyString(Prop(vol, VOLUME_NAME)), BadVolumeName(v));
    if IsArray(Prop(vol, CHAPTERS)) then ChaptersChecks(e, ChaptersOf(vol), v, |ChaptersOf(vol)|) else e + [BadChapters(v)]
  }

  /** The outer `forEach` over the first `i` volumes of `vols`, numbered 1..i. */
  function VolumesChecks(errors: seq<Defect>, vols: seq<Json>, i: nat): seq<Defect>
    requires i <= |vols|
  {
    if i == 0 then errors
    else VolumeChecks(VolumesChecks(errors, vols, i - 1), vols[i - 1], i)
  }

  /** Every defect pushed, in order. */
  function Defects(data: Json): seq<Defect>
  {
    VolumesChecks(TopDefects(data), Volumes(data), |Volumes(data)|)
  }

  /** What one call of `validateBookData` does. */
  function Validate(data: Json): Verdict
  {
    if Throws(data) then TypeError
    else if Defects(data) == [] then Valid
    else Invalid(Defects(data))
  }

  // ---------------------------------------------------------------------
  // The imperative check
  // ---------------------------------------------------------------------

  /** Pushes one defect per failed check in nested loops, then fails if
      any was pushed. */
  method ValidateBookData(data: Json) returns (verdict: Verdict)
    ensures verdict == Validate(data)
  {
    if data == JNull {
      return TypeError;
    }
    var errors := ValidateTop(data);
    var threw;
    errors, threw := ValidateVolumes(errors, Volumes(data));
    if threw {
      return TypeError;
    }
    if |errors| > 0 {
      return Invalid(errors);
    }
    return Valid;
  }

  /** The three top-level checks of `validateBookData`. */
  method ValidateTop(data: Json) returns (errors: seq<Defect>)
    ensures errors == TopDefects(data)
  {
    errors := [];
    if !IsNonEmptyString(Prop(data, TITLE)) {
      errors := errors + [BadTitle];
    }
    if !IsNonEmptyString(Prop(data, AUTHOR)) {
      errors := errors + [BadAuthor];
    }
    if !IsArray(Prop(data, CONTENT)) {
      errors := errors + [BadContent];
    }
  }

  /** The outer `forEach` over the volumes `vols`, pushing onto the shared
      `errors`; `threw` when one of them throws. */
  method ValidateVolumes(errors0: seq<Defect>, vols: seq<Json>) returns (errors: seq<Defect>, threw: bool)
    ensures threw == !NoThrowUpTo(vols, |vols|)
    ensures !threw ==> errors == VolumesChecks(errors0, vols, |vols|)
  {
    errors, threw := errors0, false;
    var i := 0;
    while i < |vols| && !threw
      invariant 0 <= i <= |vols|
      invariant threw ==> !NoThrowUpTo(vols, |vols|)
      invariant !threw ==> errors == VolumesChecks(errors0, vols, i) && NoThrowUpTo(vols, i)
    {
      VolumesStep(errors0, vols, i);
      errors, threw := ValidateVolume(errors, vols[i], i + 1);
      if threw {
        ThrowStops(vols, i, |vols|);
      }
      i := i + 1;
    }
  }

  /** One more volume: its checks follow those of the volumes before it,
      and it throws or not on its own. */
  lemma VolumesStep(errors0: seq<Defect>, vols: seq<Json>, i: nat)
    requires i < |vols|
    ensures VolumesChecks(errors0, vols, i + 1) == VolumeChecks(VolumesChecks(errors0, vols, i), vols[i], i + 1)
    ensures NoThrowUpTo(vols, i + 1) == (NoThrowUpTo(vols, i) && !VolumeThrows(vols[i]))
  {
  }

  /** Once volume `k` throws, no longer prefix is free of throws. */
  lemma {:induction false} ThrowStops(vols: seq<Json>, k: nat, i: nat)
    requires k < i <= |vols| && VolumeThrows(vols[k])
    ensures !NoThrowUpTo(vols, i)
  {
    if i > k + 1 {
      ThrowStops(vols, k, i - 1);
    }
  }

  /** The body of the outer `forEach` for volume number `v`, pushing onto
      the shared `errors`; `threw` when it reads a property of `null`. */
  method ValidateVolume(errors0: seq<Defect>, vol: Json, v: nat) returns (errors: seq<Defect>, threw: bool)
    ensures threw == VolumeThrows(vol)
    ensures !threw ==> errors == VolumeChecks(errors0, vol, v)
  {
    errors := errors0;
    if vol == JNull {
      return errors, true;
    }
    if !IsNonEmptyString(Prop(vol, VOLUME_NAME)) {
      errors := errors + [BadVolumeName(v)];
    }
    if !IsArray(Prop(vol, CHAPTERS)) {
      errors := errors + [BadChapters(v)];
      return errors, false;
    }
    errors, threw := ValidateChapters(errors, ChaptersOf(vol), v);
  }

  /** The inner `forEach` over the chapters `chs` of volume number `v`;
      `threw` when one of them is `null`. */
  method ValidateChapters(errors0: seq<Defect>, chs: seq<Json>, v: nat) returns (errors: seq<Defect>, threw: bool)
    ensures threw == !NoNullUpTo(chs, |chs|)
    ensures !threw ==> errors == ChaptersChecks(errors0, chs, v, |chs|)
  {
    errors := errors0;
    var j := 0;
    while j < |chs|
      invariant 0 <= j <= |chs|
      invariant errors == ChaptersChecks(errors0, chs, v, j)
      invariant NoNullUpTo(chs, j)
    {
      if chs[j] == JNull {
        NullStops(chs, j, |chs|);
        return errors, true;
      }
      if !IsNonEmptyString(Prop(chs[j], CHAPTER_TITLE)) {
        errors := errors + [BadChapterTitle(v, j + 1)];
      }
      if !IsNonEmptyString(Prop(chs[j], CHAPTER_CONTENT)) {
        errors := errors + [BadChapterContent(v, j + 1)];
      }
      j := j + 1;
    }
    return errors, false;
  }

  /** Once chapter `j` is `null`, no longer prefix is free of `null`. */
  lemma {:induction false} NullStops(chs: seq<Json>, j: nat, n: nat)
    requires j < n <= |chs| && chs[j] == JNull
    ensures !NoNullUpTo(chs, n)
  {
    if n > j + 1 {
      NullStops(chs, j, n - 1);
    }
  }

  /** `NoNullUpTo` says what its name says. */
  lemma {:induction false} NoNullUpToAll(chs: seq<Json>, j: nat)
    requires j <= |chs|
    ensures NoNullUpTo(chs, j) <==> forall m :: 0 <= m < j ==> chs[m] != JNull
  {
    if j > 0 {
      NoNullUpToAll(chs, j - 1);
    }
  }

  /** `NoThrowUpTo` says what its name says. */
  lemma {:induction false} NoThrowUpToAll(vols: seq<Json>, i: nat)
    requires i <= |vols|
    ensures NoThrowUpTo(vols, i) <==> forall k :: 0 <= k < i ==> !VolumeThrows(vols[k])
  {
    if i > 0 {
      NoThrowUpToAll(vols, i - 1);
    }
  }

  /** The call throws exactly when the book is `null`, a volume is `null`,
      or a chapter of a volume whose `chapters` is an array is `null`. */
  lemma ThrowsIff(data: Json)
    ensures Throws(data) <==>
      || data == JNull
      || (exists k :: 0 <= k < |Volumes(data)| && Volumes(data)[k] == JNull)
      || (exists k, j :: 0 <= k < |Volumes(data)| && 0 <= j < |ChaptersOf(Volumes(data)[k])| && ChaptersOf(Volumes(data)[k])[j] == JNull)
  {
    var vols := Volumes(data);
    NoThrowUpToAll(vols, |vols|);
    forall k | 0 <= k < |vols| {
      NoNullUpToAll(ChaptersOf(vols[k]), |ChaptersOf(vols[k])|);
    }
  }

  // ---------------------------------------------------------------------
  // Properties
  // ---------------------------------------------------------------------

  /** The conditions under which the book passes. */
  predicate WellFormed(data: Json)
  {
    && IsNonEmptyString(Prop(data, TITLE))
    && IsNonEmptyString(Prop(data, AUTHOR))
    && IsArray(Prop(data, CONTENT))
    && forall k :: 0 <= k < |Volumes(data)| ==> WellFormedVolume(Volumes(data)[k])
  }

  predicate WellFormedVolume(vol: Json)
  {
    && IsNonEmptyString(Prop(vol, VOLUME_NAME))
    && IsArray(Prop(vol, CHAPTERS))
    && forall j :: 0 <= j < |ChaptersOf(vol)| ==> WellFormedChapter(ChaptersOf(vol)[j])
  }

  predicate WellFormedChapter(ch: Json)
  {
    IsNonEmptyString(Prop(ch, CHAPTER_TITLE)) && IsNonEmptyString(Prop(ch, CHAPTER_CONTENT))
  }

  /** The chapter defect `d` holds for one of the first `j` chapters
      `chs` of volume `v`. */
  predicate IsChapterDefect(chs: seq<Json>, v: nat, j: nat, d: Defect)
    requires j <= |chs|
  {
    match d
    case BadChapterTitle(w, c) => w == v && 1 <= c <= j && !IsNonEmptyString(Prop(chs[c - 1], CHAPTER_TITLE))
    case BadChapterContent(w, c) => w == v && 1 <= c <= j && !IsNonEmptyString(Prop(chs[c - 1], CHAPTER_CONTENT))
    case _ => false
  }

  /** The chapter defect `d` holds for a chapter of volume `vol`, number `v`. */
  predicate IsVolumeChapterDefect(vol: Json, v: nat, d: Defect)
  {
    IsArray(Prop(vol, CHAPTERS)) && IsChapterDefect(ChaptersOf(vol), v, |ChaptersOf(vol)|, d)
  }

  /** The volume or chapter defect `d` holds for the volumes `vols`; the
      chapter checks apply only to volumes whose `chapters` is an array. */
  predicate IsVolumeDefect(vols: seq<Json>, i: nat, d: Defect)
    requires i <= |vols|
  {
    match d
    case BadVolumeName(v) => 1 <= v <= i && !IsNonEmptyString(Prop(vols[v - 1], VOLUME_NAME))
    case BadChapters(v) => 1 <= v <= i && !IsArray(Prop(vols[v - 1], CHAPTERS))
    case BadChapterTitle(v, _) => 1 <= v <= i && IsVolumeChapterDefect(vols[v - 1], v, d)
    case BadChapterContent(v, _) => 1 <= v <= i && IsVolumeChapterDefect(vols[v - 1], v, d)
    case _ => false
  }

  /** The defect `d` is present in `data`, stated per kind of check. */
  predicate IsDefect(data: Json, d: Defect)
  {
    match d
    case BadTitle => !IsNonEmptyString(Prop(data, TITLE))
    case BadAuthor => !IsNonEmptyString(Prop(data, AUTHOR))
    case BadContent => !IsArray(Prop(data, CONTENT))
    case _ => IsVolumeDefect(Volumes(data), |Volumes(data)|, d)
  }

  lemma PushUnlessIn(errors: seq<Defect>, ok: bool, x: Defect, d: Defect)
    ensures d in PushUnless(errors, ok, x) <==> d in errors || (!ok && d == x)
  {
  }

  lemma TopDefectsExact(data: Json, d: Defect)
    ensures d in TopDefects(data) <==> (d.BadTitle? || d.BadAuthor? || d.BadContent?) && IsDefect(data, d)
  {
    var e1 := PushUnless([], IsNonEmptyString(Prop(data, TITLE)), BadTitle);
    var e2 := PushUnless(e1, IsNonEmptyString(Prop(data, AUTHOR)), BadAuthor);
    PushUnlessIn([], IsNonEmptyString(Prop(data, TITLE)), BadTitle, d);
    PushUnlessIn(e1, IsNonEmptyString(Prop(data, AUTHOR)), BadAuthor, d);
    PushUnlessIn(e2, IsArray(Prop(data, CONTENT)), BadContent, d);
  }

  lemma ChapterChecksIn(errors: seq<Defect>, ch: Json, v: nat, c: nat, d: Defect)
    ensures d in ChapterChecks(errors, ch, v, c) <==>
      || d in errors
      || (d == BadChapterTitle(v, c) && !IsNonEmptyString(Prop(ch, CHAPTER_TITLE)))
      || (d == BadChapterContent(v, c) && !IsNonEmptyString(Prop(ch, CHAPTER_CONTENT)))
  {
    var e := PushUnless(errors, IsNonEmptyString(Prop(ch, CHAPTER_TITLE)), BadChapterTitle(v, c));
    PushUnlessIn(errors, IsNonEmptyString(Prop(ch, CHAPTER_TITLE)), BadChapterTitle(v, c), d);
    PushUnlessIn(e, IsNonEmptyString(Prop(ch, CHAPTER_CONTENT)), BadChapterContent(v, c), d);
  }

  /** The chapter defects of the first `j` chapters are those of the
      first `j - 1` and those of chapter `j`. */
  lemma IsChapterDefectStep(chs: seq<Json>, v: nat, j: nat, d: Defect)
    requires 0 < j <= |chs|
    ensures IsChapterDefect(chs, v, j, d) <==>
      || IsChapterDefect(chs, v, j - 1, d)
      || (d == BadChapterTitle(v, j) && !IsNonEmptyString(Prop(chs[j - 1], CHAPTER_TITLE)))
      || (d == BadChapterContent(v, j) && !IsNonEmptyString(Prop(chs[j - 1], CHAPTER_CONTENT)))
  {
  }

  lemma {:induction false} ChaptersChecksExact(errors: seq<Defect>, chs: seq<Json>, v: nat, j: nat, d: Defect)
    requires j <= |chs|
    ensures d in ChaptersChecks(errors, chs, v, j) <==> d in errors || IsChapterDefect(chs, v, j, d)
  {
    if j > 0 {
      ChaptersChecksExact(errors, chs, v, j - 1, d);
      ChapterChecksIn(ChaptersChecks(errors, chs, v, j - 1), chs[j - 1], v, j, d);
      IsChapterDefectStep(chs, v, j, d);
    }
  }

  lemma VolumeChecksIn(errors: seq<Defect>, vol: Json, v: nat, d: Defect)
    ensures d in VolumeChecks(errors, vol, v) <==>
      || d in errors
      || (d == BadVolumeName(v) && !IsNonEmptyString(Prop(vol, VOLUME_NAME)))
      || (d == BadChapters(v) && !IsArray(Prop(vol, CHAPTERS)))
      || IsVolumeChapterDefect(vol, v, d)
  {
    var e := PushUnless(errors, IsNonEmptyString(Prop(vol, VOLUME_NAME)), BadVolumeName(v));
    PushUnlessIn(errors, IsNonEmptyString(Prop(vol, VOLUME_NAME)), BadVolumeName(v), d);
    PushUnlessIn(e, false, BadChapters(v), d);
    ChaptersChecksExact(e, ChaptersOf(vol), v, |ChaptersOf(vol)|, d);
  }

  /** The volume and chapter defects of the first `i` volumes are those
      of the first `i - 1` and those of volume `i`. */
  lemma IsVolumeDefectStep(vols: seq<Json>, i: nat, d: Defect)
    requires 0 < i <= |vols|
    ensures IsVolumeDefect(vols, i, d) <==>
      || IsVolumeDefect(vols, i - 1, d)
      || (d == BadVolumeName(i) && !IsNonEmptyString(Prop(vols[i - 1], VOLUME_NAME)))
      || (d == BadChapters(i) && !IsArray(Prop(vols[i - 1], CHAPTERS)))
      || IsVolumeChapterDefect(vols[i - 1], i, d)
  {
  }

  lemma {:induction false} VolumesChecksExact(errors: seq<Defect>, vols: seq<Json>, i: nat, d: Defect)
    requires i <= |vols|
    ensures d in VolumesChecks(errors, vols, i) <==> d in errors || IsVolumeDefect(vols, i, d)
  {
    if i > 0 {
      VolumesChecksExact(errors, vols, i - 1, d);
      VolumeChecksIn(VolumesChecks(errors, vols, i - 1), vols[i - 1], i, d);
      IsVolumeDefectStep(vols, i, d);
    }
  }

  /** The reported defects are exactly the defects present: nothing is
      missed and nothing is reported that does not hold. */
  lemma DefectsExact(data: Json, d: Defect)
    ensures d in Defects(data) <==> IsDefect(data, d)
  {
    TopDefectsExact(data, d);
    VolumesChecksExact(TopDefects(data), Volumes(data), |Volumes(data)|, d);
  }

  /** Where a defect sits in the report: top-level checks first, then by
      volume number, then chapter number, then the order of the checks. */
  datatype Place = Place(volume: int, chapter: int, check: int)

  function Key(d: Defect): Place
  {
    match d
    case BadTitle => Place(0, 0, 0)
    case BadAuthor => Place(0, 0, 1)
    case BadContent => Place(0, 0, 2)
    case BadVolumeName(v) => Place(v, 0, 0)
    case BadChapters(v) => Place(v, 0, 1)
    case BadChapterTitle(v, c) => Place(v, c, 0)
    case BadChapterContent(v, c) => Place(v, c, 1)
  }

  predicate Before(a: Place, b: Place)
  {
    a.volume < b.volume || (a.volume == b.volume && (a.chapter < b.chapter || (a.chapter == b.chapter && a.check < b.check)))
  }

  /** Every two defects of the report are in strictly increasing places. */
  predicate Ordered(ds: seq<Defect>)
  {
    forall p, q :: 0 <= p < q < |ds| ==> Before(Key(ds[p]), Key(ds[q]))
  }

  /** Every two neighbouring defects are in strictly increasing places. */
  predicate Sorted(ds: seq<Defect>)
  {
    |ds| <= 1 || (Sorted(ds[..|ds| - 1]) && Before(Key(ds[|ds| - 2]), Key(ds[|ds| - 1])))
  }

  /** The last defect of `ds`, if any, sits before place `k`. */
  predicate EndsBefore(ds: seq<Defect>, k: Place)
  {
    ds == [] || Before(Key(ds[|ds| - 1]), k)
  }

  lemma {:induction false} SortedOrdered(ds: seq<Defect>)
    requires Sorted(ds)
    ensures Ordered(ds)
    decreases |ds|
  {
    if |ds| > 1 {
      var n := |ds|;
      SortedOrdered(ds[..n - 1]);
      forall p, q | 0 <= p < q < n ensures Before(Key(ds[p]), Key(ds[q])) {
        if q < n - 1 {
          assert ds[p] == ds[..n - 1][p] && ds[q] == ds[..n - 1][q];
        } else if p < n - 2 {
          assert ds[p] == ds[..n - 1][p] && ds[n - 2] == ds[..n - 1][n - 2];
        }
      }
    }
  }

  /** Pushing a defect placed after the last one keeps the list sorted. */
  lemma PushSorted(errors: seq<Defect>, ok: bool, x: Defect, k: Place)
    requires Sorted(errors) && EndsBefore(errors, Key(x)) && Before(Key(x), k)
    ensures Sorted(PushUnless(errors, ok, x)) && EndsBefore(PushUnless(errors, ok, x), k)
  {
    if !ok {
      var e := errors + [x];
      assert e[..|e| - 1] == errors;
    }
  }

  lemma {:induction false} ChaptersChecksSorted(errors: seq<Defect>, chs: seq<Json>, v: nat, j: nat)
    requires j <= |chs|
    requires Sorted(errors) && EndsBefore(errors, Place(v, 1, 0))
    ensures Sorted(ChaptersChecks(errors, chs, v, j)) && EndsBefore(ChaptersChecks(errors, chs, v, j), Place(v, j + 1, 0))
  {
    if j > 0 {
      var e0 := ChaptersChecks(errors, chs, v, j - 1);
      ChaptersChecksSorted(errors, chs, v, j - 1);
      var e1 := PushUnless(e0, IsNonEmptyString(Prop(chs[j - 1], CHAPTER_TITLE)), BadChapterTitle(v, j));
      PushSorted(e0, IsNonEmptyString(Prop(chs[j - 1], CHAPTER_TITLE)), BadChapterTitle(v, j), Place(v, j, 1));
      PushSorted(e1, IsNonEmptyString(Prop(chs[j - 1], CHAPTER_CONTENT)), BadChapterContent(v, j), Place(v, j + 1, 0));
      assert ChaptersChecks(errors, chs, v, j) == PushUnless(e1, IsNonEmptyString(Prop(chs[j - 1], CHAPTER_CONTENT)), BadChapterContent(v, j));
    }
  }

  lemma VolumeChecksSorted(errors: seq<Defect>, vol: Json, v: nat)
    requires Sorted(errors) && EndsBefore(errors, Place(v, 0, 0))
    ensures Sorted(VolumeChecks(errors, vol, v)) && EndsBefore(VolumeChecks(errors, vol, v), Place(v + 1, 0, 0))
  {
    var e := PushUnless(errors, IsNonEmptyString(Prop(vol, VOLUME_NAME)), BadVolumeName(v));
    PushSorted(errors, IsNonEmptyString(Prop(vol, VOLUME_NAME)), BadVolumeName(v), Place(v, 0, 1));
    if IsArray(Prop(vol, CHAPTERS)) {
      ChaptersChecksSorted(e, ChaptersOf(vol), v, |ChaptersOf(vol)|);
    } else {
      PushSorted(e, false, BadChapters(v), Place(v + 1, 0, 0));
    }
  }

  lemma {:induction false} VolumesChecksSorted(errors: seq<Defect>, vols: seq<Json>, i: nat)
    requires i <= |vols|
    requires Sorted(errors) && EndsBefore(errors, Place(1, 0, 0))
    ensures Sorted(VolumesChecks(errors, vols, i)) && EndsBefore(VolumesChecks(errors, vols, i), Place(i + 1, 0, 0))
  {
    if i > 0 {
      var prior := VolumesChecks(errors, vols, i - 1);
      VolumesChecksSorted(errors, vols, i - 1);
      VolumeChecksSorted(prior, vols[i - 1], i);
      assert VolumesChecks(errors, vols, i) == VolumeChecks(prior, vols[i - 1], i);
    }
  }

  /** The report lists the defects top-level first, then volume by volume
      and chapter by chapter, each at most once. */
  lemma DefectsOrdered(data: Json)
    ensures Ordered(Defects(data))
  {
    var e1 := PushUnless([], IsNonEmptyString(Prop(data, TITLE)), BadTitle);
    var e2 := PushUnless(e1, IsNonEmptyString(Prop(data, AUTHOR)), BadAuthor);
    PushSorted([], IsNonEmptyString(Prop(data, TITLE)), BadTitle, Place(0, 0, 1));
    PushSorted(e1, IsNonEmptyString(Prop(data, AUTHOR)), BadAuthor, Place(0, 0, 2));
    PushSorted(e2, IsArray(Prop(data, CONTENT)), BadContent, Place(1, 0, 0));
    VolumesChecksSorted(TopDefects(data), Volumes(data), |Volumes(data)|);
    SortedOrdered(Defects(data));
  }

  /** The check passes exactly when title, author, content and every
      volume and chapter are well formed. */
  lemma ValidIff(data: Json)
    ensures Validate(data) == Valid <==> WellFormed(data)
  {
    if WellFormed(data) {
      WellFormedNoDefects(data);
      WellFormedNoThrow(data);
    }
    if Validate(data) == Valid {
      ValidIsWellFormed(data);
    }
  }

  lemma WellFormedNoDefects(data: Json)
    requires WellFormed(data)
    ensures Defects(data) == []
  {
    if Defects(data) != [] {
      var d := Defects(data)[0];
      DefectsExact(data, d);
      WellFormedNoDefect(data, d);
    }
  }

  lemma WellFormedNoDefect(data: Json, d: Defect)
    requires WellFormed(data)
    ensures !IsDefect(data, d)
  {
    var vols := Volumes(data);
    if !(d.BadTitle? || d.BadAuthor? || d.BadContent?) && 1 <= d.volume <= |vols| {
      assert WellFormedVolume(vols[d.volume - 1]);
      if (d.BadChapterTitle? || d.BadChapterContent?) && 1 <= d.chapter <= |ChaptersOf(vols[d.volume - 1])| {
        assert WellFormedChapter(ChaptersOf(vols[d.volume - 1])[d.chapter - 1]);
      }
    }
  }

  lemma WellFormedNoThrow(data: Json)
    requires WellFormed(data)
    ensures !Throws(data)
  {
    var vols := Volumes(data);
    assert data != JNull;
    forall k | 0 <= k < |vols| ensures !VolumeThrows(vols[k]) {
      assert WellFormedVolume(vols[k]);
      forall j | 0 <= j < |ChaptersOf(vols[k])| ensures ChaptersOf(vols[k])[j] != JNull {
        assert WellFormedChapter(ChaptersOf(vols[k])[j]);
      }
      NoNullUpToAll(ChaptersOf(vols[k]), |ChaptersOf(vols[k])|);
    }
    NoThrowUpToAll(vols, |vols|);
  }

  lemma ValidIsWellFormed(data: Json)
    requires Validate(data) == Valid
    ensures WellFormed(data)
  {
    var vols := Volumes(data);
    DefectsExact(data, BadTitle);
    DefectsExact(data, BadAuthor);
    DefectsExact(data, BadContent);
    forall k | 0 <= k < |vols| ensures WellFormedVolume(vols[k]) {
      DefectsExact(data, BadVolumeName(k + 1));
      DefectsExact(data, BadChapters(k + 1));
      forall j | 0 <= j < |ChaptersOf(vols[k])| ensures WellFormedChapter(ChaptersOf(vols[k])[j]) {
        DefectsExact(data, BadChapterTitle(k + 1, j + 1));
        DefectsExact(data, BadChapterContent(k + 1, j + 1));
      }
    }
  }

  // ---------------------------------------------------------------------
  // The thrown message
  // ---------------------------------------------------------------------

  function Message(d: Defect): JsString
  {
    match d
    case BadTitle => Lit("Missing or invalid " + "\"title\" field")
    case BadAuthor => Lit("Missing or invalid " + "\"author\" field")
    case BadContent => Lit("Missing or invalid " + "\"content\" field " + "(must be an array)")
    case BadVolumeName(v) => Lit("Volume ") + NatToDecimal(v) + Lit(": Missing or " + "invalid " + "\"volume_name\"")
    case BadChapters(v) => Lit("Volume ") + NatToDecimal(v) + Lit(": Missing or " + "invalid \"chapters\" " + "field")
    case BadChapterTitle(v, c) =>
      Lit("Volume ") + NatToDecimal(v) + Lit(", Chapter ") + NatToDecimal(c) + Lit(": Missing or " + "invalid " + "\"chapter_title\"")
    case BadChapterContent(v, c) =>
      Lit("Volume ") + NatToDecimal(v) + Lit(", Chapter ") + NatToDecimal(c) + Lit(": Missing or " + "invalid " + "\"chapter_content\"")
  }

  function Messages(ds: seq<Defect>): seq<JsString>
    ensures |Messages(ds)| == |ds|
    ensures forall i :: 0 <= i < |ds| ==> Messages(ds)[i] == Message(ds[i])
  {
    seq(|ds|, i requires 0 <= i < |ds| => Message(ds[i]))
  }

  /** `'JSON validation failed:\n' + errors.join('\n')`. */
  function FailureMessage(ds: seq<Defect>): JsString
  {
    Lit("JSON validation failed:\n") + Join(Messages(ds), [NEWLINE])
  }
}
