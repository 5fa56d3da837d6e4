/** `generateUUID` (script.js): every `x` of the template becomes a random
    hex digit and the `y` a random digit of the variant; `Math.random` is
    the sequence `draws`, consumed one value per replaced character, left
    to right. */
module Uuid {
  import opened JsText

  const HOLE_X: CodeUnit := 0x78   // x
  const HOLE_Y: CodeUnit := 0x79   // y
  const DASH: CodeUnit := 0x2D

  /** Character `i` of the template `xxxxxxxx-xxxx-4xxx-yxxx-xxxxxxxxxxxx`:
      the layout of section 4.4 of RFC 4122 with the version digit fixed. */
  function TemplateAt(i: int): CodeUnit
  {
    if i == 8 || i == 13 || i == 18 || i == 23 then DASH
    else if i == 14 then 0x34
    else if i == 19 then HOLE_Y
    else HOLE_X
  }

  function Template(): (t: JsString)
    ensures |t| == 36 && forall i :: 0 <= i < 36 ==> t[i] == TemplateAt(i)
  {
    seq(36, i requires 0 <= i < 36 => TemplateAt(i))
  }

  predicate IsHole(u: CodeUnit) { u == HOLE_X || u == HOLE_Y }

  /** A value of `Math.random()`. */
  type Draw = r: real | 0.0 <= r < 1.0

  /** `Math.random() * 16 | 0` */
  function Nibble(d: Draw): (r: nat)
    ensures r < 16
  {
    (d * 16.0).Floor
  }

  /** `r & 0x3 | 0x8`: the two low bits of `r` under the variant bits `10`. */
  function VariantNibble(r: nat): (v: nat)
    requires r < 16
    ensures 8 <= v < 12
  {
    r % 4 + 8
  }

  /** `v.toString(16)` for a single hex digit. */
  function HexDigit(v: nat): (u: CodeUnit)
    requires v < 16
    ensures IsLowerHex(u)
  {
    if v < 10 then 0x30 + v else 0x61 + (v - 10)
  }

  predicate IsLowerHex(u: CodeUnit) { 0x30 <= u <= 0x39 || 0x61 <= u <= 0x66 }

  /** Number of `x` and `y` characters in `t`. */
  function Holes(t: JsString): nat
  {
    if t == [] then 0 else (if IsHole(t[0]) then 1 else 0) + Holes(t[1..])
  }

  /** The callback of the `replace`, applied left to right. */
  function Fill(t: JsString, draws: seq<Draw>): JsString
    requires |draws| >= Holes(t)
  {
    if t == [] then []
    else if t[0] == HOLE_X then [HexDigit(Nibble(draws[0]))] + Fill(t[1..], draws[1..])
    else if t[0] == HOLE_Y then [HexDigit(VariantNibble(Nibble(draws[0])))] + Fill(t[1..], draws[1..])
    else [t[0]] + Fill(t[1..], draws)
  }

  lemma {:induction false} HolesBefore(t: JsString, i: nat)
    requires i < |t| && IsHole(t[i])
    ensures Holes(t[..i]) < Holes(t)
  {
    if i > 0 {
      assert t[1..][..i - 1] == t[..i][1..];
      HolesBefore(t[1..], i - 1);
    }
  }

  /** The replaced string keeps the template's length and its fixed
      characters; the `x` at position `i` shows the draw numbered by the
      holes before it, and so does the `y`, with the variant bits set. */
  lemma {:induction false} FillSpec(t: JsString, draws: seq<Draw>)
    requires |draws| >= Holes(t)
    ensures |Fill(t, draws)| == |t|
    ensures forall i :: 0 <= i < |t| && !IsHole(t[i]) ==> Fill(t, draws)[i] == t[i]
    ensures forall i :: 0 <= i < |t| && IsHole(t[i]) ==> Holes(t[..i]) < |draws|
    ensures forall i :: 0 <= i < |t| && t[i] == HOLE_X ==>
      Holes(t[..i]) < |draws| && Fill(t, draws)[i] == HexDigit(Nibble(draws[Holes(t[..i])]))
    ensures forall i :: 0 <= i < |t| && t[i] == HOLE_Y ==>
      Holes(t[..i]) < |draws| && Fill(t, draws)[i] == HexDigit(VariantNibble(Nibble(draws[Holes(t[..i])])))
    decreases |t|
  {
    if t != [] {
      var rest := if IsHole(t[0]) then draws[1..] else draws;
      FillSpec(t[1..], rest);
      forall i | 1 <= i < |t| ensures Holes(t[..i]) == (if IsHole(t[0]) then 1 else 0) + Holes(t[1..][..i - 1]) {
        assert t[..i][1..] == t[1..][..i - 1];
      }
      forall i | 0 <= i < |t| && IsHole(t[i]) ensures Holes(t[..i]) < |draws| {
        HolesBefore(t, i);
      }
    }
  }

  /** The values one call of `generateUUID` draws: one per `x` or `y`. */
  type UuidDraws = d: seq<Draw> | |d| == 31 witness seq(31, i => 0.0)

  /** `generateUUID()`. */
  function GenerateUuid(draws: UuidDraws): JsString
  {
    TemplateHoles();
    Fill(Template(), draws)
  }

  lemma {:induction false} HolesAppend(a: JsString, b: JsString)
    ensures Holes(a + b) == Holes(a) + Holes(b)
    decreases |a|
  {
    if a == [] {
      assert a + b == b;
    } else {
      assert (a + b)[1..] == a[1..] + b;
      assert (a + b)[0] == a[0];
      HolesAppend(a[1..], b);
    }
  }

  /** Number of fixed template characters before position `k`. */
  function FixedBefore(k: nat): nat
  {
    (if k > 8 then 1 else 0) + (if k > 13 then 1 else 0) + (if k > 14 then 1 else 0)
    + (if k > 18 then 1 else 0) + (if k > 23 then 1 else 0)
  }

  lemma {:induction false} TemplatePrefixHoles(k: nat)
    requires k <= 36
    ensures Holes(Template()[..k]) == k - FixedBefore(k)
  {
    if k == 0 {
      assert Template()[..0] == [];
    } else {
      TemplatePrefixHoles(k - 1);
      assert Template()[..k] == Template()[..k - 1] + [Template()[k - 1]];
      HolesAppend(Template()[..k - 1], [Template()[k - 1]]);
    }
  }

  /** The template has 31 characters to replace, so one call draws 31 values. */
  lemma TemplateHoles()
    ensures Holes(Template()) == 31
  {
    TemplatePrefixHoles(36);
    assert Template()[..36] == Template();
  }

  /** The result has the RFC 4122 string layout: 36 characters, `-` at 8,
      13, 18 and 23, the version digit `4` at 14, a variant digit among
      `8`, `9`, `a`, `b` at 19, and lower-case hex digits everywhere else. */
  lemma UuidLayout(draws: UuidDraws)
    ensures |GenerateUuid(draws)| == 36
    ensures forall i :: i in {8, 13, 18, 23} ==> GenerateUuid(draws)[i] == DASH
    ensures GenerateUuid(draws)[14] == 0x34
    ensures GenerateUuid(draws)[19] in {0x38, 0x39, 0x61, 0x62}
    ensures forall i :: 0 <= i < 36 && i !in {8, 13, 18, 23} ==> IsLowerHex(GenerateUuid(draws)[i])
  {
    TemplateHoles();
    FillSpec(Template(), draws);
    var t := Template();
    forall i | 0 <= i < 36 && i !in {8, 13, 18, 23} ensures IsLowerHex(Fill(t, draws)[i]) {
      if i == 14 {
        assert t[i] == 0x34;
      } else {
        assert IsHole(t[i]);
      }
    }
    assert t[19] == HOLE_Y;
    var v := VariantNibble(Nibble(draws[Holes(t[..19])]));
    assert v in {8, 9, 10, 11};
  }
}
