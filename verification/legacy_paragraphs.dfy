/** The legacy `formatChapterContent` of `script.js`: unlike the format
    modules, it splits at the regular expression `/\n\s*\n/` (a line
    break, any white space, a line break) and drops the pieces without
    text before wrapping the rest in paragraphs. */
module LegacyParagraphs {
  import opened JsText
  import opened Wrappers
  import opened Markup
  import opened EpubFamily

  // ---------------------------------------------------------------------
  // Matching /\n\s*\n/ at one position
  // ---------------------------------------------------------------------

  /** The text `\n\s*\n` matches: a line break, white space, a line break. */
  predicate BlankLine(t: JsString)
  {
    |t| >= 2 && t[0] == NEWLINE && t[|t| - 1] == NEWLINE
    && forall k :: 0 < k < |t| - 1 ==> IsJsWhitespace(t[k])
  }

  /** End of the run of white space that starts at `i`. */
  function RunEnd(s: JsString, i: nat): (r: nat)
    requires i <= |s|
    ensures i <= r <= |s|
    ensures forall k :: i <= k < r ==> IsJsWhitespace(s[k])
    ensures r < |s| ==> !IsJsWhitespace(s[r])
    decreases |s| - i
  {
    if i < |s| && IsJsWhitespace(s[i]) then RunEnd(s, i + 1) else i
  }

  /** The last line break in `s[lo..hi]`. */
  function LastNewline(s: JsString, lo: nat, hi: nat): (r: Option<nat>)
    requires lo <= hi <= |s|
    ensures r.Some? ==> lo <= r.value < hi && s[r.value] == NEWLINE
                        && (forall k :: r.value < k < hi ==> s[k] != NEWLINE)
    ensures r.None? ==> forall k :: lo <= k < hi ==> s[k] != NEWLINE
    decreases hi - lo
  {
    if hi == lo then None
    else if s[hi - 1] == NEWLINE then Some(hi - 1)
    else LastNewline(s, lo, hi - 1)
  }

  /** Where a match of `\n\s*\n` that starts at `q` ends, if there is one:
      the greedy `\s*` first takes the whole run of white space after the
      line break and then gives back units until a line break follows, so
      the match ends after the last line break of that run. */
  function BlankLineAt(s: JsString, q: nat): (r: Option<nat>)
    requires q < |s|
    ensures r.Some? ==> q + 2 <= r.value <= |s|
  {
    if s[q] == NEWLINE then
      match LastNewline(s, q + 1, RunEnd(s, q + 1))
      case Some(m) => Some(m + 1)
      case None => None
    else None
  }

  /** A match is a blank line, and the longest one starting there: the
      rest of the white space run after its first line break holds no
      further line break. */
  lemma BlankLineAtSound(s: JsString, q: nat)
    requires q < |s| && BlankLineAt(s, q).Some?
    ensures var e := BlankLineAt(s, q).value;
      && BlankLine(s[q..e])
      && forall k :: e <= k < RunEnd(s, q + 1) ==> s[k] != NEWLINE
  {
    var r := RunEnd(s, q + 1);
    var m := LastNewline(s, q + 1, r);
    var e := BlankLineAt(s, q).value;
    assert m.Some? && e == m.value + 1;
    MatchIsBlankLine(s, q, e);
  }

  lemma MatchIsBlankLine(s: JsString, q: nat, e: nat)
    requires q < |s| && q + 2 <= e <= RunEnd(s, q + 1) && s[q] == NEWLINE && s[e - 1] == NEWLINE
    ensures BlankLine(s[q..e])
  {
    var t := s[q..e];
    forall k | 0 < k < |t| - 1 ensures IsJsWhitespace(t[k]) {
      assert t[k] == s[q + k];
    }
  }

  /** A run of white space from `i` reaches past every white space unit
      that follows `i` without a gap. */
  lemma {:induction false} RunEndPast(s: JsString, i: nat, j: nat)
    requires i <= j < |s|
    requires forall k :: i <= k <= j ==> IsJsWhitespace(s[k])
    ensures j < RunEnd(s, i)
    decreases j - i
  {
    if i < j {
      RunEndPast(s, i + 1, j);
    }
  }

  /** Any blank line that starts at `q` and ends at `j` is matched there,
      and the match reaches at least as far. */
  lemma BlankLineAtComplete(s: JsString, q: nat, j: nat)
    requires q < j < |s| && s[q] == NEWLINE && s[j] == NEWLINE
    requires forall k :: q < k < j ==> IsJsWhitespace(s[k])
    ensures BlankLineAt(s, q).Some? && j < BlankLineAt(s, q).value
  {
    RunEndPast(s, q + 1, j);
  }

  // ---------------------------------------------------------------------
  // content.split(/\n\s*\n/)
  // ---------------------------------------------------------------------

  /** The pieces of `s` from piece start `p`, the scan being at `q`: at
      each position a match ends the current piece and the next one starts
      after the match; with no match the scan moves one unit on. */
  function RegexSplitFrom(s: JsString, p: nat, q: nat): (r: seq<JsString>)
    requires p <= q <= |s|
    ensures |r| >= 1
    decreases |s| - q
  {
    if q == |s| then [s[p..]]
    else match BlankLineAt(s, q)
      case Some(e) => [s[p..q]] + RegexSplitFrom(s, e, e)
      case None => RegexSplitFrom(s, p, q + 1)
  }

  /** `content.split(/\n\s*\n/)` */
  function RegexSplit(s: JsString): seq<JsString>
  {
    RegexSplitFrom(s, 0, 0)
  }

  /** The matched separators, in the order the split removes them. */
  function SeparatorsFrom(s: JsString, p: nat, q: nat): seq<JsString>
    requires p <= q <= |s|
    decreases |s| - q
  {
    if q == |s| then []
    else match BlankLineAt(s, q)
      case Some(e) => [s[q..e]] + SeparatorsFrom(s, e, e)
      case None => SeparatorsFrom(s, p, q + 1)
  }

  /** Pieces put back together with the separators between them. */
  function Interleave(pieces: seq<JsString>, seps: seq<JsString>): JsString
    requires |pieces| == |seps| + 1
  {
    if seps == [] then pieces[0] else pieces[0] + seps[0] + Interleave(pieces[1..], seps[1..])
  }

  /** The split loses nothing: the pieces with the blank lines that
      separated them give back the text, and every separator is a blank
      line. */
  lemma {:induction false} RegexSplitRoundTrip(s: JsString, p: nat, q: nat)
    requires p <= q <= |s|
    ensures var pieces, seps := RegexSplitFrom(s, p, q), SeparatorsFrom(s, p, q);
      && |pieces| == |seps| + 1
      && Interleave(pieces, seps) == s[p..]
      && forall i :: 0 <= i < |seps| ==> BlankLine(seps[i])
    decreases |s| - q
  {
    if q < |s| {
      match BlankLineAt(s, q)
      case Some(e) =>
        RegexSplitRoundTrip(s, e, e);
        BlankLineAtSound(s, q);
        var rest, restSeps := RegexSplitFrom(s, e, e), SeparatorsFrom(s, e, e);
        assert RegexSplitFrom(s, p, q) == [s[p..q]] + rest;
        assert SeparatorsFrom(s, p, q) == [s[q..e]] + restSeps;
        InterleaveCons(s[p..q], s[q..e], rest, restSeps);
        SliceThree(s, p, q, e);
        AllBlankLinesCons(s[q..e], restSeps);
      case None =>
        RegexSplitRoundTrip(s, p, q + 1);
    }
  }

  lemma InterleaveCons(piece: JsString, sep: JsString, rest: seq<JsString>, restSeps: seq<JsString>)
    requires |rest| == |restSeps| + 1
    ensures Interleave([piece] + rest, [sep] + restSeps) == piece + sep + Interleave(rest, restSeps)
  {
    assert ([piece] + rest)[1..] == rest;
    assert ([sep] + restSeps)[1..] == restSeps;
  }

  lemma SliceThree(s: JsString, p: nat, q: nat, e: nat)
    requires p <= q <= e <= |s|
    ensures s[p..] == s[p..q] + s[q..e] + s[e..]
  {
  }

  lemma AllBlankLinesCons(sep: JsString, restSeps: seq<JsString>)
    requires BlankLine(sep) && forall i :: 0 <= i < |restSeps| ==> BlankLine(restSeps[i])
    ensures forall i :: 0 <= i < |[sep] + restSeps| ==> BlankLine(([sep] + restSeps)[i])
  {
  }

  /** `t` holds a blank line from `i` to `j`. */
  predicate BlankLineSpan(t: JsString, i: int, j: int)
  {
    0 <= i < j <= |t| && BlankLine(t[i..j])
  }

  /** A piece with no match at any of its positions holds no blank line. */
  lemma PieceClean(s: JsString, p: nat, q: nat)
    requires p <= q <= |s|
    requires forall k :: p <= k < q ==> BlankLineAt(s, k).None?
    ensures forall i, j :: !BlankLineSpan(s[p..q], i, j)
  {
    var u := s[p..q];
    forall i, j | BlankLineSpan(u, i, j) ensures false {
      var t := u[i..j];
      assert t[0] == u[i] == s[p + i];
      assert t[|t| - 1] == u[j - 1] == s[p + j - 1];
      forall k | p + i < k < p + j - 1 ensures IsJsWhitespace(s[k]) {
        assert s[k] == t[k - p - i];
      }
      BlankLineAtComplete(s, p + i, p + j - 1);
    }
  }

  /** No piece of the split holds a blank line: a blank line anywhere in
      the text is matched where it starts. */
  lemma {:induction false} RegexSplitClean(s: JsString, p: nat, q: nat)
    requires p <= q <= |s|
    requires forall k :: p <= k < q ==> BlankLineAt(s, k).None?
    ensures forall n, i, j :: 0 <= n < |RegexSplitFrom(s, p, q)| ==> !BlankLineSpan(RegexSplitFrom(s, p, q)[n], i, j)
    decreases |s| - q
  {
    var pieces := RegexSplitFrom(s, p, q);
    if q == |s| {
      PieceClean(s, p, q);
      assert s[p..] == s[p..q];
    } else {
      match BlankLineAt(s, q)
      case Some(e) =>
        PieceClean(s, p, q);
        RegexSplitClean(s, e, e);
        assert forall n :: 1 <= n < |pieces| ==> pieces[n] == RegexSplitFrom(s, e, e)[n - 1];
      case None =>
        RegexSplitClean(s, p, q + 1);
    }
  }

  /** Every piece of `content.split(/\n\s*\n/)` is free of blank lines,
      and the pieces with the matched blank lines between them give back
      the content. */
  lemma RegexSplitSpec(s: JsString)
    ensures forall n, i, j :: 0 <= n < |RegexSplit(s)| ==> !BlankLineSpan(RegexSplit(s)[n], i, j)
    ensures |RegexSplit(s)| == |SeparatorsFrom(s, 0, 0)| + 1
    ensures Interleave(RegexSplit(s), SeparatorsFrom(s, 0, 0)) == s
  {
    RegexSplitClean(s, 0, 0);
    RegexSplitRoundTrip(s, 0, 0);
  }

  // ---------------------------------------------------------------------
  // .filter(p => p.trim()).map(p => `<p>…</p>`).join('\n    ')
  // ---------------------------------------------------------------------

  /** `pieces.filter(p => p.trim())` */
  function NonBlankPieces(pieces: seq<JsString>): seq<JsString>
  {
    if pieces == [] then []
    else (if Trim(pieces[0]) != [] then [pieces[0]] else []) + NonBlankPieces(pieces[1..])
  }

  /** The filter keeps exactly the pieces with text. */
  lemma {:induction false} NonBlankPiecesMembers(pieces: seq<JsString>)
    ensures forall x :: x in NonBlankPieces(pieces) <==> x in pieces && Trim(x) != []
    decreases |pieces|
  {
    if pieces != [] {
      var tail := pieces[1..];
      NonBlankPiecesMembers(tail);
      if Trim(pieces[0]) != [] {
        assert NonBlankPieces(pieces) == [pieces[0]] + NonBlankPieces(tail);
      } else {
        assert NonBlankPieces(pieces) == NonBlankPieces(tail);
      }
      assert pieces == [pieces[0]] + tail;
    }
  }

  function LegacyParagraph(piece: JsString): JsString
  {
    P_OPEN + EscapeXml(Trim(piece)) + P_CLOSE
  }

  function LegacyParagraphs(pieces: seq<JsString>): (r: seq<JsString>)
    ensures |r| == |pieces|
    ensures forall i :: 0 <= i < |pieces| ==> r[i] == LegacyParagraph(pieces[i])
  {
    seq(|pieces|, i requires 0 <= i < |pieces| => LegacyParagraph(pieces[i]))
  }

  /** Legacy `formatChapterContent(content)`. */
  function LegacyFormatChapterContent(content: JsString): JsString
  {
    Join(LegacyParagraphs(NonBlankPieces(RegexSplit(content))), PARAGRAPH_SEPARATOR)
  }

  lemma {:induction false} CountLtKept(pieces: seq<JsString>)
    ensures CountEach(LT, LegacyParagraphs(NonBlankPieces(pieces))) == 2 * NonBlankCount(pieces)
    decreases |pieces|
  {
    if pieces != [] {
      var tail := pieces[1..];
      CountLtKept(tail);
      var rest := LegacyParagraphs(NonBlankPieces(tail));
      if Trim(pieces[0]) != [] {
        CountLtParagraph(pieces[0]);
        var first := LegacyParagraph(pieces[0]);
        assert LegacyParagraphs(NonBlankPieces(pieces)) == [first] + rest;
        assert ([first] + rest)[1..] == rest;
      } else {
        assert NonBlankPieces(pieces) == NonBlankPieces(tail);
      }
    }
  }

  /** One paragraph per piece with text, and nothing for a blank piece:
      the output holds two `<` per such piece and no other. */
  lemma LegacyFormatParagraphs(content: JsString)
    ensures Count(LT, LegacyFormatChapterContent(content)) == 2 * NonBlankCount(RegexSplit(content))
  {
    KeptParagraphsCount(RegexSplit(content));
  }

  lemma KeptParagraphsCount(pieces: seq<JsString>)
    ensures Count(LT, Join(LegacyParagraphs(NonBlankPieces(pieces)), PARAGRAPH_SEPARATOR)) == 2 * NonBlankCount(pieces)
  {
    CountAbsent(LT, PARAGRAPH_SEPARATOR);
    CountJoin(LT, LegacyParagraphs(NonBlankPieces(pieces)), PARAGRAPH_SEPARATOR);
    CountLtKept(pieces);
  }
}
