/** JavaScript string primitives the converters rely on: UTF-16 code units,
    decimal rendering of numbers, `trim`, `split`/`join` on a literal
    separator, ASCII case mapping and `TextEncoder` (UTF-8). */
module JsText {

  /** One UTF-16 code unit: the element of a JavaScript string. */
  type CodeUnit = x: int | 0 <= x < 0x1_0000

  type JsString = seq<CodeUnit>

  /** One octet of a `Uint8Array`. */
  type Byte = x: int | 0 <= x < 0x100

  /** A template literal of the source. Every literal used in this model
      consists of Basic Multilingual Plane characters, so each character
      is one code unit. */
  function Lit(s: string): (r: JsString)
    ensures |r| == |s|
    ensures forall i :: 0 <= i < |s| ==> r[i] == s[i] as int % 0x1_0000
  {
    seq(|s|, i requires 0 <= i < |s| => s[i] as int % 0x1_0000)
  }

  const NEWLINE: CodeUnit := 0x0A
  const SPACE: CodeUnit := 0x20
  const UNDERSCORE: CodeUnit := 0x5F

  predicate IsAscii(u: CodeUnit) { u < 0x80 }

  predicate AllAscii(s: JsString) { forall i :: 0 <= i < |s| ==> IsAscii(s[i]) }

  predicate IsDigit(u: CodeUnit) { 0x30 <= u <= 0x39 }

  predicate IsAsciiLower(u: CodeUnit) { 0x61 <= u <= 0x7A }

  predicate IsAsciiUpper(u: CodeUnit) { 0x41 <= u <= 0x5A }

  /** Two sequence identities, as lemmas to call where the solver would
      otherwise have to compare the sequences element by element. */
  lemma EmptyAppend<T>(s: seq<T>)
    ensures [] + s == s
  {
  }

  lemma AppendAssoc<T>(a: seq<T>, b: seq<T>, c: seq<T>)
    ensures a + b + c == a + (b + c)
  {
  }

  /** A slice of the middle part of a concatenation. */
  lemma SliceInside<T>(a: seq<T>, b: seq<T>, c: seq<T>, i: nat, j: nat)
    requires i <= j <= |b|
    ensures (a + (b + c))[|a| + i..|a| + j] == b[i..j]
  {
  }

  /** A slice within the first part of a concatenation. */
  lemma SliceFront<T>(a: seq<T>, b: seq<T>, i: nat, j: nat)
    requires i <= j <= |a|
    ensures (a + b)[i..j] == a[i..j]
  {
  }

  /** `a + h + x` is a prefix of `a + (h + b + c)` when `x` is one of `b`. */
  lemma PrefixExtend<T>(a: seq<T>, h: seq<T>, x: seq<T>, b: seq<T>, c: seq<T>)
    requires x <= b
    ensures a + (h + x) <= a + (h + b + c)
  {
    assert (a + (h + b + c))[..|a + (h + x)|] == a + (h + x);
  }

  /** A prefix of `a` is a prefix of `a` followed by anything. */
  lemma PrefixTrans<T>(x: seq<T>, a: seq<T>, b: seq<T>)
    requires x <= a
    ensures x <= a + b
  {
    assert (a + b)[..|x|] == a[..|x|];
  }

  /** A sequence is a prefix of itself followed by anything. */
  lemma PrefixSelf<T>(a: seq<T>, b: seq<T>)
    ensures a <= a + b
  {
    assert (a + b)[..|a|] == a;
  }

  /** Putting the same front before a prefix and its sequence. */
  lemma PrefixFront<T>(f: seq<T>, x: seq<T>, w: seq<T>)
    requires x <= w
    ensures f + x <= f + w
  {
    assert (f + w)[..|f + x|] == f + x;
  }

  lemma PrefixTransitive<T>(x: seq<T>, y: seq<T>, z: seq<T>)
    requires x <= y && y <= z
    ensures x <= z
  {
    assert z[..|x|] == y[..|x|];
  }

  /** The second and the last of four concatenated parts. */
  lemma SliceParts<T>(a: seq<T>, b: seq<T>, c: seq<T>, d: seq<T>)
    ensures (a + b + c + d)[|a|..|a| + |b|] == b
    ensures (a + b + c + d)[|a| + |b| + |c|..] == d
  {
  }

  /** Number of occurrences of `u` in `s`. */
  function Count(u: CodeUnit, s: JsString): nat
  {
    if s == [] then 0 else Count(u, s[..|s| - 1]) + (if s[|s| - 1] == u then 1 else 0)
  }

  lemma {:induction false} CountAppend(u: CodeUnit, a: JsString, b: JsString)
    ensures Count(u, a + b) == Count(u, a) + Count(u, b)
    decreases |b|
  {
    if b == [] {
      assert a + b == a;
    } else {
      assert (a + b)[..|a + b| - 1] == a + b[..|b| - 1];
      CountAppend(u, a, b[..|b| - 1]);
    }
  }

  lemma {:induction false} CountAbsent(u: CodeUnit, s: JsString)
    requires forall i :: 0 <= i < |s| ==> s[i] != u
    ensures Count(u, s) == 0
    decreases |s|
  {
    if s != [] {
      CountAbsent(u, s[..|s| - 1]);
    }
  }

  // ---------------------------------------------------------------------
  // Decimal rendering of integers (`${n}` and `Number.prototype.toString`)
  // ---------------------------------------------------------------------

  function DigitOf(d: nat): (u: CodeUnit)
    requires d < 10
    ensures IsDigit(u)
  {
    0x30 + d
  }

  /** Decimal text of a natural number, most significant digit first. */
  function NatToDecimal(n: nat): (r: JsString)
    ensures |r| >= 1
    ensures forall i :: 0 <= i < |r| ==> IsDigit(r[i])
    decreases n
  {
    if n < 10 then [DigitOf(n)] else NatToDecimal(n / 10) + [DigitOf(n % 10)]
  }

  /** The number a string of decimal digits denotes (the inverse of NatToDecimal). */
  function DecimalValue(s: JsString): nat
    requires forall i :: 0 <= i < |s| ==> IsDigit(s[i])
  {
    if s == [] then 0
    else
      assert IsDigit(s[|s| - 1]);
      10 * DecimalValue(s[..|s| - 1]) + (s[|s| - 1] as int - 0x30)
  }

  /** Reading the rendered digits back gives the number: the rendering loses nothing. */
  lemma {:induction false} DecimalRoundTrip(n: nat)
    ensures DecimalValue(NatToDecimal(n)) == n
    decreases n
  {
    if n >= 10 {
      var r := NatToDecimal(n);
      assert r[..|r| - 1] == NatToDecimal(n / 10);
      DecimalRoundTrip(n / 10);
    }
  }

  lemma DecimalInjective(m: nat, n: nat)
    requires NatToDecimal(m) == NatToDecimal(n)
    ensures m == n
  {
    DecimalRoundTrip(m);
    DecimalRoundTrip(n);
  }

  /** JavaScript's rendering of an integral number (exact below 10^21). */
  function IntToDecimal(n: int): (r: JsString)
    ensures n >= 0 ==> r == NatToDecimal(n)
    ensures n < 0 ==> r == [0x2D] + NatToDecimal(-n)
  {
    if n < 0 then [0x2D] + NatToDecimal(-n) else NatToDecimal(n)
  }

  /** The rendering reads back: a number at or above zero is its digits,
      a negative one is `-` and the digits of its magnitude. */
  lemma IntDecimalReadBack(n: int)
    ensures var r := IntToDecimal(n);
      n >= 0 ==> (forall i :: 0 <= i < |r| ==> IsDigit(r[i])) && DecimalValue(r) == n
    ensures var r := IntToDecimal(n);
      n < 0 ==> |r| >= 2 && r[0] == 0x2D
                && (forall i :: 0 <= i < |r[1..]| ==> IsDigit(r[1..][i])) && DecimalValue(r[1..]) == -n
  {
    if n < 0 {
      var d := NatToDecimal(-n);
      assert ([0x2D] + d)[1..] == d;
      DecimalRoundTrip(-n);
    } else {
      DecimalRoundTrip(n);
    }
  }

  /** Distinct integers render differently. */
  lemma IntDecimalInjective(m: int, n: int)
    requires IntToDecimal(m) == IntToDecimal(n)
    ensures m == n
  {
    IntDecimalReadBack(m);
    IntDecimalReadBack(n);
  }

  // ---------------------------------------------------------------------
  // String.prototype.trim: ECMAScript WhiteSpace and LineTerminator
  // ---------------------------------------------------------------------

  /** The code units `trim` and the regular-expression class `\s` match:
      TAB, LF, VT, FF, CR, SPACE, NBSP, the other space separators of
      category Zs, LINE SEPARATOR, PARAGRAPH SEPARATOR and ZWNBSP. */
  predicate IsJsWhitespace(u: CodeUnit)
  {
    || 0x09 <= u <= 0x0D
    || u == 0x20 || u == 0xA0 || u == 0x1680
    || 0x2000 <= u <= 0x200A
    || u == 0x2028 || u == 0x2029 || u == 0x202F || u == 0x205F
    || u == 0x3000 || u == 0xFEFF
  }

  predicate IsBlank(s: JsString) { forall i :: 0 <= i < |s| ==> IsJsWhitespace(s[i]) }

  function TrimStart(s: JsString): JsString
    decreases |s|
  {
    if s != [] && IsJsWhitespace(s[0]) then TrimStart(s[1..]) else s
  }

  function TrimEnd(s: JsString): JsString
    decreases |s|
  {
    if s != [] && IsJsWhitespace(s[|s| - 1]) then TrimEnd(s[..|s| - 1]) else s
  }

  /** `s.trim()`: the longest slice of `s` without leading or trailing white space. */
  function Trim(s: JsString): JsString
  {
    TrimEnd(TrimStart(s))
  }

  /** `trimStart` drops the leading white space and nothing else. */
  lemma {:induction false} TrimStartSpec(s: JsString)
    ensures |TrimStart(s)| <= |s| && TrimStart(s) == s[|s| - |TrimStart(s)|..]
    ensures TrimStart(s) != [] ==> !IsJsWhitespace(TrimStart(s)[0])
    ensures IsBlank(s[..|s| - |TrimStart(s)|])
    decreases |s|
  {
    if s != [] && IsJsWhitespace(s[0]) {
      var t := s[1..];
      TrimStartSpec(t);
      var r := TrimStart(t);
      assert TrimStart(s) == r;
      var n := |s| - |r|;
      assert t[|t| - |r|..] == s[n..];
      var lead := s[..n];
      assert IsBlank(t[..n - 1]);
      forall i | 0 <= i < n ensures IsJsWhitespace(lead[i]) {
        if i == 0 {
          assert lead[0] == s[0];
        } else {
          assert lead[i] == t[..n - 1][i - 1];
        }
      }
    }
  }

  /** `trimEnd` drops the trailing white space and nothing else. */
  lemma {:induction false} TrimEndSpec(s: JsString)
    ensures |TrimEnd(s)| <= |s| && TrimEnd(s) == s[..|TrimEnd(s)|]
    ensures TrimEnd(s) != [] ==> !IsJsWhitespace(TrimEnd(s)[|TrimEnd(s)| - 1])
    ensures IsBlank(s[|TrimEnd(s)|..])
    decreases |s|
  {
    if s != [] && IsJsWhitespace(s[|s| - 1]) {
      var init := s[..|s| - 1];
      var r := TrimEnd(init);
      TrimEndSpec(init);
      assert init[..|r|] == s[..|r|];
      forall i | |r| <= i < |s| ensures IsJsWhitespace(s[i]) {
        if i < |s| - 1 {
          assert s[i] == init[|r|..][i - |r|];
        }
      }
    }
  }

  /** `trim` removes white space only at the ends: what it returns is a slice
      of its input that neither starts nor ends with white space, and it
      is empty exactly when the input is blank (`p.trim()` is falsy). */
  lemma TrimSpec(s: JsString)
    ensures exists a, b :: 0 <= a <= b <= |s| && Trim(s) == s[a..b]
    ensures Trim(s) != [] ==> !IsJsWhitespace(Trim(s)[0]) && !IsJsWhitespace(Trim(s)[|Trim(s)| - 1])
    ensures Trim(s) == [] <==> IsBlank(s)
  {
    var t := TrimStart(s);
    var r := TrimEnd(t);
    TrimStartSpec(s);
    TrimEndSpec(t);
    var a := |s| - |t|;
    assert r == s[a..a + |r|];
    if r == [] {
      assert IsBlank(t[|r|..]);
      assert t == [];
      forall i | 0 <= i < |s| ensures IsJsWhitespace(s[i]) {
        assert s[i] == s[..a][i];
      }
    } else {
      assert !IsJsWhitespace(r[0]);
    }
  }

  // ---------------------------------------------------------------------
  // String.prototype.split with a literal separator, and Array.prototype.join
  // ---------------------------------------------------------------------

  /** `s.split(sep)` for a non-empty literal separator: scanning left to
      right, every non-overlapping occurrence of `sep` ends the current piece. */
  function Split(s: JsString, sep: JsString): (r: seq<JsString>)
    requires sep != []
    ensures |r| >= 1
  {
    SplitFrom(s, sep, [])
  }

  function SplitFrom(s: JsString, sep: JsString, current: JsString): (r: seq<JsString>)
    requires sep != []
    ensures |r| >= 1
    decreases |s|
  {
    if s == [] then [current]
    else if |sep| <= |s| && s[..|sep|] == sep then [current] + SplitFrom(s[|sep|..], sep, [])
    else SplitFrom(s[1..], sep, current + [s[0]])
  }

  /** `pieces.join(sep)`. */
  function Join(pieces: seq<JsString>, sep: JsString): JsString
  {
    if pieces == [] then []
    else if |pieces| == 1 then pieces[0]
    else pieces[0] + sep + Join(pieces[1..], sep)
  }

  lemma {:induction false} JoinSplitFrom(s: JsString, sep: JsString, current: JsString)
    requires sep != []
    ensures Join(SplitFrom(s, sep, current), sep) == current + s
    decreases |s|
  {
    if s == [] {
    } else if |sep| <= |s| && s[..|sep|] == sep {
      var tail := s[|sep|..];
      var rest := SplitFrom(tail, sep, []);
      assert SplitFrom(s, sep, current) == [current] + rest;
      JoinSplitFrom(tail, sep, []);
      JoinCons(current, rest, sep);
      assert s == sep + tail;
    } else {
      var next := current + [s[0]];
      assert SplitFrom(s, sep, current) == SplitFrom(s[1..], sep, next);
      JoinSplitFrom(s[1..], sep, next);
      assert next + s[1..] == current + s;
    }
  }

  lemma JoinCons(first: JsString, rest: seq<JsString>, sep: JsString)
    requires rest != []
    ensures Join([first] + rest, sep) == first + sep + Join(rest, sep)
  {
    assert ([first] + rest)[1..] == rest;
  }

  /** Joining the pieces with the separator gives back the split string. */
  lemma JoinSplit(s: JsString, sep: JsString)
    requires sep != []
    ensures Join(Split(s, sep), sep) == s
  {
    JoinSplitFrom(s, sep, []);
  }

  // ---------------------------------------------------------------------
  // Occurrence of a text, and a document written as a list of lines
  // ---------------------------------------------------------------------

  /** `s.includes(x)` */
  predicate Contains(s: JsString, x: JsString)
  {
    exists i :: 0 <= i <= |s| && OccursAt(s, x, i)
  }

  predicate OccursAt(s: JsString, x: JsString, i: int)
  {
    0 <= i && i + |x| <= |s| && s[i..i + |x|] == x
  }

  lemma ContainsMiddle(a: JsString, x: JsString, b: JsString)
    ensures Contains(a + x + b, x)
  {
    assert (a + x + b)[|a|..|a| + |x|] == x;
    assert OccursAt(a + x + b, x, |a|);
  }

  lemma ContainsFront(s: JsString, x: JsString, b: JsString)
    requires Contains(s, x)
    ensures Contains(s + b, x)
  {
    var i :| 0 <= i <= |s| && OccursAt(s, x, i);
    assert (s + b)[i..i + |x|] == s[i..i + |x|];
    assert OccursAt(s + b, x, i);
  }

  lemma ContainsBack(a: JsString, s: JsString, x: JsString)
    requires Contains(s, x)
    ensures Contains(a + s, x)
  {
    var i :| 0 <= i <= |s| && OccursAt(s, x, i);
    assert (a + s)[|a| + i..|a| + i + |x|] == s[i..i + |x|];
    assert OccursAt(a + s, x, |a| + i);
  }

  /** The first `j` lines, written one after the other. */
  function ConcatFirst(lines: seq<JsString>, j: nat): JsString
    requires j <= |lines|
  {
    if j == 0 then [] else ConcatFirst(lines, j - 1) + lines[j - 1]
  }

  function Concat(lines: seq<JsString>): JsString
  {
    ConcatFirst(lines, |lines|)
  }

  /** `xs.map(f).join('')` */
  function ConcatMap<T>(f: T -> JsString, xs: seq<T>): JsString
  {
    if xs == [] then [] else ConcatMap(f, xs[..|xs| - 1]) + f(xs[|xs| - 1])
  }

  lemma {:induction false} ConcatMapCons<T>(f: T -> JsString, x: T, xs: seq<T>)
    ensures ConcatMap(f, [x] + xs) == f(x) + ConcatMap(f, xs)
    decreases |xs|
  {
    if xs == [] {
      assert [x] + xs == [x];
      assert [x][..0] == [];
    } else {
      var init := xs[..|xs| - 1];
      ConcatMapCons(f, x, init);
      assert ([x] + xs)[..|xs|] == [x] + init;
    }
  }

  /** Every line occurs in the text the lines make up. */
  lemma {:induction false} ConcatContains(lines: seq<JsString>, i: nat, j: nat)
    requires i < j <= |lines|
    ensures Contains(ConcatFirst(lines, j), lines[i])
    decreases j
  {
    if j == i + 1 {
      ContainsMiddle(ConcatFirst(lines, i), lines[i], []);
      assert ConcatFirst(lines, i) + lines[i] + [] == ConcatFirst(lines, j);
    } else {
      ConcatContains(lines, i, j - 1);
      ContainsFront(ConcatFirst(lines, j - 1), lines[i], lines[j - 1]);
    }
  }

  /** What occurs among the first `k` lines still occurs once more lines
      follow. */
  lemma {:induction false} ConcatGrows(lines: seq<JsString>, x: JsString, k: nat, j: nat)
    requires k <= j <= |lines| && Contains(ConcatFirst(lines, k), x)
    ensures Contains(ConcatFirst(lines, j), x)
    decreases j
  {
    if j > k {
      ConcatGrows(lines, x, k, j - 1);
      ContainsFront(ConcatFirst(lines, j - 1), x, lines[j - 1]);
    }
  }

  // ---------------------------------------------------------------------
  // Case mapping
  // ---------------------------------------------------------------------

  function UpperUnit(u: CodeUnit): CodeUnit
  {
    if IsAsciiLower(u) then u - 0x20 else u
  }

  /** `toUpperCase` restricted to the ASCII letters; every other code unit
      is left as it is. */
  function ToUpperAscii(s: JsString): (r: JsString)
    ensures |r| == |s|
    ensures forall i :: 0 <= i < |s| ==> r[i] == UpperUnit(s[i])
  {
    seq(|s|, i requires 0 <= i < |s| => UpperUnit(s[i]))
  }

  /** Upper-casing changes exactly the lower-case ASCII letters, leaves
      none behind and so changes nothing a second time. */
  lemma UpperAsciiSpec(s: JsString)
    ensures var r := ToUpperAscii(s);
      forall i :: 0 <= i < |s| ==> !IsAsciiLower(r[i]) && (r[i] != s[i] <==> IsAsciiLower(s[i]))
    ensures var r := ToUpperAscii(s);
      forall i :: 0 <= i < |s| ==> (IsAsciiUpper(r[i]) <==> IsAsciiUpper(s[i]) || IsAsciiLower(s[i]))
    ensures ToUpperAscii(ToUpperAscii(s)) == ToUpperAscii(s)
  {
  }

  // ---------------------------------------------------------------------
  // TextEncoder: UTF-8 per RFC 3629 section 3, lone surrogates as U+FFFD
  // ---------------------------------------------------------------------

  predicate IsHighSurrogate(u: CodeUnit) { 0xD800 <= u <= 0xDBFF }

  predicate IsLowSurrogate(u: CodeUnit) { 0xDC00 <= u <= 0xDFFF }

  /** The UTF-8 bytes of one Unicode scalar value. */
  function Utf8Scalar(cp: nat): (r: seq<Byte>)
    requires cp < 0x11_0000
    ensures 1 <= |r| <= 4
    ensures |r| == 1 <==> cp < 0x80
  {
    if cp < 0x80 then [cp]
    else if cp < 0x800 then [0xC0 + cp / 0x40, 0x80 + cp % 0x40]
    else if cp < 0x1_0000 then [0xE0 + cp / 0x1000, 0x80 + (cp / 0x40) % 0x40, 0x80 + cp % 0x40]
    else [0xF0 + cp / 0x4_0000, 0x80 + (cp / 0x1000) % 0x40, 0x80 + (cp / 0x40) % 0x40, 0x80 + cp % 0x40]
  }

  /** `new TextEncoder().encode(s)`: surrogate pairs become one four-byte
      sequence, a lone surrogate becomes U+FFFD (EF BF BD). */
  function Utf8Encode(s: JsString): seq<Byte>
    decreases |s|
  {
    if s == [] then []
    else if IsHighSurrogate(s[0]) && |s| >= 2 && IsLowSurrogate(s[1]) then
      Utf8Scalar(0x1_0000 + (s[0] as int - 0xD800) * 0x400 + (s[1] as int - 0xDC00)) + Utf8Encode(s[2..])
    else if IsHighSurrogate(s[0]) || IsLowSurrogate(s[0]) then
      [0xEF, 0xBF, 0xBD] + Utf8Encode(s[1..])
    else
      Utf8Scalar(s[0]) + Utf8Encode(s[1..])
  }

  /** An ASCII string encodes to its own code units. */
  lemma {:induction false} Utf8Ascii(s: JsString)
    requires AllAscii(s)
    ensures Utf8Encode(s) == s
    decreases |s|
  {
    if s != [] {
      Utf8Ascii(s[1..]);
    }
  }

  /** Never fewer bytes than code units, and as many exactly when every
      code unit is ASCII. */
  lemma {:induction false} Utf8Length(s: JsString)
    ensures |Utf8Encode(s)| >= |s|
    ensures |Utf8Encode(s)| == |s| <==> AllAscii(s)
    decreases |s|
  {
    if s != [] {
      if IsHighSurrogate(s[0]) && |s| >= 2 && IsLowSurrogate(s[1]) {
        Utf8Length(s[2..]);
      } else {
        Utf8Length(s[1..]);
        if AllAscii(s[1..]) && IsAscii(s[0]) {
          assert AllAscii(s) by {
            forall i | 0 <= i < |s| ensures IsAscii(s[i]) {
              if i > 0 { assert s[i] == s[1..][i - 1]; }
            }
          }
        }
      }
    }
  }
}
