/** The character-escaping helpers the converters wrap every piece of book
    text in: `escapeXML` and the DOM-based `escapeHTML` (entity escaping),
    and the two `escapeRTF` variants (backslash escaping). Each is a chain
    of `replace` calls whose patterns match single code units, so each maps
    its input one code unit at a time; `Flatten` is that map. */
module Markup {
  import opened JsText
  import opened Json

  // ---------------------------------------------------------------------
  // Per-code-unit replacement
  // ---------------------------------------------------------------------

  /** The concatenation of `f(u)` over the code units `u` of `s`, in order:
      what `s.replace(/<one-unit class>/g, f)` computes. */
  function Flatten(s: JsString, f: CodeUnit -> JsString): JsString
    decreases |s|
  {
    if s == [] then [] else Flatten(s[..|s| - 1], f) + f(s[|s| - 1])
  }

  lemma {:induction false} FlattenAppend(a: JsString, b: JsString, f: CodeUnit -> JsString)
    ensures Flatten(a + b, f) == Flatten(a, f) + Flatten(b, f)
    decreases |b|
  {
    if b == [] {
      assert a + b == a;
    } else {
      assert (a + b)[..|a + b| - 1] == a + b[..|b| - 1];
      FlattenAppend(a, b[..|b| - 1], f);
    }
  }

  lemma FlattenUnit(c: CodeUnit, f: CodeUnit -> JsString)
    ensures Flatten([c], f) == f(c)
  {
    assert [c][..0] == [];
  }

  lemma FlattenCons(c: CodeUnit, s: JsString, f: CodeUnit -> JsString)
    ensures Flatten([c] + s, f) == f(c) + Flatten(s, f)
  {
    FlattenAppend([c], s, f);
    FlattenUnit(c, f);
  }

  /** A property of every unit that any `f(c)` produces is a property of
      every unit of the result. */
  lemma {:induction false} FlattenUnits(s: JsString, f: CodeUnit -> JsString, p: CodeUnit -> bool)
    requires forall c: CodeUnit, j :: 0 <= j < |f(c)| ==> p(f(c)[j])
    ensures forall i :: 0 <= i < |Flatten(s, f)| ==> p(Flatten(s, f)[i])
    decreases |s|
  {
    if s != [] {
      FlattenUnits(s[..|s| - 1], f, p);
      var a := Flatten(s[..|s| - 1], f);
      var b := f(s[|s| - 1]);
      forall i | 0 <= i < |a + b| ensures p((a + b)[i]) {
        if i >= |a| {
          assert (a + b)[i] == b[i - |a|];
        }
      }
    }
  }

  /** When `f` leaves every unit of `s` as it is, so does the replacement. */
  lemma {:induction false} FlattenIdentity(s: JsString, f: CodeUnit -> JsString)
    requires forall i :: 0 <= i < |s| ==> f(s[i]) == [s[i]]
    ensures Flatten(s, f) == s
    decreases |s|
  {
    if s != [] {
      FlattenIdentity(s[..|s| - 1], f);
      assert s[..|s| - 1] + [s[|s| - 1]] == s;
    }
  }

  predicate HasPrefix(s: JsString, p: JsString)
  {
    |p| <= |s| && s[..|p|] == p
  }

  // ---------------------------------------------------------------------
  // Entity tables: escaping and its inverse
  // ---------------------------------------------------------------------

  /** An entity table: each entry is the escape text and the code unit it stands for. */
  type Table = seq<(JsString, CodeUnit)>

  /** The replacement for one code unit: the escape of the first entry at
      or after `k` standing for it, or the unit itself when none does. */
  function EntityFrom(t: Table, c: CodeUnit, k: nat): JsString
    decreases |t| - k
  {
    if k >= |t| then [c] else if t[k].1 == c then t[k].0 else EntityFrom(t, c, k + 1)
  }

  function EntityOf(t: Table, c: CodeUnit): JsString
  {
    EntityFrom(t, c, 0)
  }

  predicate EscapesFrom(t: Table, c: CodeUnit, k: nat)
  {
    exists j :: k <= j < |t| && t[j].1 == c
  }

  /** What makes a table decodable: every escape is non-empty and starts
      with the escape character `esc`, no escape is a prefix of another,
      and `esc` itself is escaped. */
  predicate ValidTable(t: Table, esc: CodeUnit)
  {
    && (forall k :: 0 <= k < |t| ==> t[k].0 != [] && t[k].0[0] == esc)
    && (forall k, m :: 0 <= k < |t| && 0 <= m < |t| && k != m ==> !HasPrefix(t[m].0, t[k].0))
    && EscapesFrom(t, esc, 0)
  }

  /** Index of the first entry whose escape starts `s`, or `|t|` when none does. */
  function FirstMatch(t: Table, s: JsString, k: nat): (m: nat)
    requires k <= |t|
    ensures k <= m <= |t|
    ensures m < |t| ==> HasPrefix(s, t[m].0)
    ensures forall j :: k <= j < m ==> !HasPrefix(s, t[j].0)
    decreases |t| - k
  {
    if k == |t| then k
    else if HasPrefix(s, t[k].0) then k
    else FirstMatch(t, s, k + 1)
  }

  /** Decoding: an escape of the table becomes its code unit, every other
      code unit is copied. */
  function Decode(t: Table, s: JsString): JsString
    decreases |s|
  {
    if s == [] then []
    else
      var k := FirstMatch(t, s, 0);
      if k < |t| && t[k].0 != [] then [t[k].1] + Decode(t, s[|t[k].0|..])
      else [s[0]] + Decode(t, s[1..])
  }

  lemma {:induction false} EntityFromSpec(t: Table, c: CodeUnit, k: nat)
    ensures EscapesFrom(t, c, k) ==> exists j :: k <= j < |t| && t[j] == (EntityFrom(t, c, k), c)
    ensures !EscapesFrom(t, c, k) ==> EntityFrom(t, c, k) == [c]
    decreases |t| - k
  {
    if k < |t| && t[k].1 != c {
      EntityFromSpec(t, c, k + 1);
      forall j | k <= j < |t| && t[j].1 == c ensures EscapesFrom(t, c, k + 1) {
        assert j != k;
      }
    }
  }

  /** Decoding an escaped unit followed by anything gives back that unit. */
  lemma DecodeStep(t: Table, esc: CodeUnit, c: CodeUnit, rest: JsString)
    requires ValidTable(t, esc)
    ensures Decode(t, EntityOf(t, c) + rest) == [c] + Decode(t, rest)
  {
    EntityFromSpec(t, c, 0);
    var e := EntityOf(t, c);
    var s := e + rest;
    if EscapesFrom(t, c, 0) {
      var k :| 0 <= k < |t| && t[k] == (e, c);
      assert s[..|e|] == e;
      forall j | 0 <= j < |t| && j != k ensures !HasPrefix(s, t[j].0) {
        var p := t[j].0;
        if |p| <= |e| {
          assert s[..|p|] == e[..|p|];
        } else if |p| <= |s| {
          assert s[..|p|][..|e|] == e;
          assert !HasPrefix(p, e);
        }
      }
      assert FirstMatch(t, s, 0) == k;
      assert s[|e|..] == rest;
    } else {
      assert s == [c] + rest;
      assert c != esc;
      forall j | 0 <= j < |t| ensures !HasPrefix(s, t[j].0) {
        var p := t[j].0;
        if |p| <= |s| {
          assert s[..|p|][0] == c;
        }
      }
      assert s[1..] == rest;
    }
  }

  /** Decoding undoes escaping with a valid table. */
  lemma {:induction false} DecodeEscape(t: Table, esc: CodeUnit, f: CodeUnit -> JsString, s: JsString)
    requires ValidTable(t, esc)
    requires forall c :: f(c) == EntityOf(t, c)
    ensures Decode(t, Flatten(s, f)) == s
    decreases |s|
  {
    if s != [] {
      FlattenCons(s[0], s[1..], f);
      assert [s[0]] + s[1..] == s;
      DecodeStep(t, esc, s[0], Flatten(s[1..], f));
      DecodeEscape(t, esc, f, s[1..]);
    }
  }

  predicate EntityAt(t: Table, s: JsString, i: int)
  {
    exists k :: 0 <= k < |t| && 0 <= i && i + |t[k].0| <= |s| && s[i..i + |t[k].0|] == t[k].0
  }

  /** When the escape character occurs only at the start of each escape,
      every occurrence of it in escaped text starts an escape of the table. */
  lemma {:induction false} EscStartsEntity(t: Table, esc: CodeUnit, f: CodeUnit -> JsString, s: JsString)
    requires ValidTable(t, esc)
    requires forall k, j :: 0 <= k < |t| && 0 < j < |t[k].0| ==> t[k].0[j] != esc
    requires forall c :: f(c) == EntityOf(t, c)
    ensures forall i :: 0 <= i < |Flatten(s, f)| && Flatten(s, f)[i] == esc ==> EntityAt(t, Flatten(s, f), i)
    decreases |s|
  {
    if s != [] {
      var c := s[|s| - 1];
      var a := Flatten(s[..|s| - 1], f);
      var b := f(c);
      EscStartsEntity(t, esc, f, s[..|s| - 1]);
      assert b == EntityOf(t, c);
      forall i | 0 <= i < |a + b| && (a + b)[i] == esc ensures EntityAt(t, a + b, i) {
        if i < |a| {
          EntityInFront(t, a, b, i);
        } else {
          EntityAtSeam(t, esc, a, c, i);
        }
      }
    }
  }

  lemma EntityInFront(t: Table, a: JsString, b: JsString, i: int)
    requires 0 <= i < |a| && EntityAt(t, a, i)
    ensures EntityAt(t, a + b, i)
  {
    var k :| 0 <= k < |t| && i + |t[k].0| <= |a| && a[i..i + |t[k].0|] == t[k].0;
    assert (a + b)[i..i + |t[k].0|] == a[i..i + |t[k].0|];
  }

  /** An escape character inside the escape of the last unit is its first unit. */
  lemma EntityAtSeam(t: Table, esc: CodeUnit, a: JsString, c: CodeUnit, i: int)
    requires ValidTable(t, esc)
    requires forall k, j :: 0 <= k < |t| && 0 < j < |t[k].0| ==> t[k].0[j] != esc
    requires |a| <= i < |a + EntityOf(t, c)| && (a + EntityOf(t, c))[i] == esc
    ensures EntityAt(t, a + EntityOf(t, c), i)
  {
    var b := EntityOf(t, c);
    EntityFromSpec(t, c, 0);
    assert (a + b)[i] == b[i - |a|];
    assert EscapesFrom(t, c, 0);
    var k :| 0 <= k < |t| && t[k] == (b, c);
    assert i == |a|;
    assert (a + b)[i..i + |t[k].0|] == b;
  }

  // ---------------------------------------------------------------------
  // escapeXML (script.js)
  // ---------------------------------------------------------------------

  const AMP: CodeUnit := 0x26
  const LT: CodeUnit := 0x3C
  const GT: CodeUnit := 0x3E
  const APOS: CodeUnit := 0x27
  const QUOT: CodeUnit := 0x22

  const LT_ENTITY: JsString := [AMP, 0x6C, 0x74, 0x3B]              // &lt;
  const GT_ENTITY: JsString := [AMP, 0x67, 0x74, 0x3B]              // &gt;
  const AMP_ENTITY: JsString := [AMP, 0x61, 0x6D, 0x70, 0x3B]       // &amp;
  const APOS_ENTITY: JsString := [AMP, 0x61, 0x70, 0x6F, 0x73, 0x3B] // &apos;
  const QUOT_ENTITY: JsString := [AMP, 0x71, 0x75, 0x6F, 0x74, 0x3B] // &quot;
  const NBSP_ENTITY: JsString := [AMP, 0x6E, 0x62, 0x73, 0x70, 0x3B] // &nbsp;

  /** The `switch` of `escapeXML`'s callback. */
  function XmlEntity(c: CodeUnit): JsString
  {
    if c == LT then LT_ENTITY
    else if c == GT then GT_ENTITY
    else if c == AMP then AMP_ENTITY
    else if c == APOS then APOS_ENTITY
    else if c == QUOT then QUOT_ENTITY
    else [c]
  }

  /** `escapeXML(text)`. */
  function EscapeXml(s: JsString): JsString
  {
    Flatten(s, XmlEntity)
  }

  /** The five predefined XML entities. */
  const XML_TABLE: Table := [(LT_ENTITY, LT), (GT_ENTITY, GT), (AMP_ENTITY, AMP), (APOS_ENTITY, APOS), (QUOT_ENTITY, QUOT)]

  lemma XmlEntityIsTable()
    ensures forall c :: XmlEntity(c) == EntityOf(XML_TABLE, c)
  {
    var t := XML_TABLE;
    forall c ensures XmlEntity(c) == EntityOf(t, c) {
      assert EntityFrom(t, c, 5) == [c];
      assert EntityFrom(t, c, 4) == if c == QUOT then QUOT_ENTITY else [c];
      assert EntityFrom(t, c, 3) == if c == APOS then APOS_ENTITY else EntityFrom(t, c, 4);
      assert EntityFrom(t, c, 2) == if c == AMP then AMP_ENTITY else EntityFrom(t, c, 3);
      assert EntityFrom(t, c, 1) == if c == GT then GT_ENTITY else EntityFrom(t, c, 2);
    }
  }

  lemma XmlTableValid()
    ensures ValidTable(XML_TABLE, AMP)
    ensures forall k, j :: 0 <= k < |XML_TABLE| && 0 < j < |XML_TABLE[k].0| ==> XML_TABLE[k].0[j] != AMP
  {
    var t := XML_TABLE;
    assert t[2].1 == AMP;
    forall k, m | 0 <= k < |t| && 0 <= m < |t| && k != m ensures !HasPrefix(t[m].0, t[k].0) {
      if |t[k].0| <= |t[m].0| {
        assert t[m].0[..|t[k].0|][1] != t[k].0[1] || t[m].0[..|t[k].0|][2] != t[k].0[2];
      }
    }
  }

  /** Decoding the five entities gives back the text `escapeXML` was given. */
  lemma XmlRoundTrip(s: JsString)
    ensures Decode(XML_TABLE, EscapeXml(s)) == s
  {
    XmlTableValid();
    XmlEntityIsTable();
    DecodeEscape(XML_TABLE, AMP, XmlEntity, s);
  }

  predicate XmlSafeUnit(u: CodeUnit)
  {
    u != LT && u != GT && u != APOS && u != QUOT
  }

  /** The output of `escapeXML` has no raw `<`, `>`, `'` or `"`, and every
      `&` in it starts one of the five entities. */
  lemma XmlEscapeSafe(s: JsString)
    ensures forall i :: 0 <= i < |EscapeXml(s)| ==> XmlSafeUnit(EscapeXml(s)[i])
    ensures forall i :: 0 <= i < |EscapeXml(s)| && EscapeXml(s)[i] == AMP ==> EntityAt(XML_TABLE, EscapeXml(s), i)
  {
    FlattenUnits(s, XmlEntity, XmlSafeUnit);
    XmlTableValid();
    XmlEntityIsTable();
    EscStartsEntity(XML_TABLE, AMP, XmlEntity, s);
  }

  /** Text free of the five markup characters is left unchanged. */
  lemma XmlEscapeIdentity(s: JsString)
    requires forall i :: 0 <= i < |s| ==> s[i] != LT && s[i] != GT && s[i] != AMP && s[i] != APOS && s[i] != QUOT
    ensures EscapeXml(s) == s
  {
    FlattenIdentity(s, XmlEntity);
  }

  // ---------------------------------------------------------------------
  // escapeHTML (script.js): the serialisation of a text node
  // ---------------------------------------------------------------------

  const NBSP: CodeUnit := 0xA0

  /** Text-node escaping of the HTML fragment serialisation algorithm. */
  function HtmlEntity(c: CodeUnit): JsString
  {
    if c == AMP then AMP_ENTITY
    else if c == NBSP then NBSP_ENTITY
    else if c == LT then LT_ENTITY
    else if c == GT then GT_ENTITY
    else [c]
  }

  /** `escapeHTML(text)`: `textContent` set, then `innerHTML` read back. */
  function EscapeHtml(s: JsString): JsString
  {
    Flatten(s, HtmlEntity)
  }

  const HTML_TABLE: Table := [(AMP_ENTITY, AMP), (NBSP_ENTITY, NBSP), (LT_ENTITY, LT), (GT_ENTITY, GT)]

  lemma HtmlEntityIsTable()
    ensures forall c :: HtmlEntity(c) == EntityOf(HTML_TABLE, c)
  {
    var t := HTML_TABLE;
    forall c ensures HtmlEntity(c) == EntityOf(t, c) {
      assert EntityFrom(t, c, 4) == [c];
      assert EntityFrom(t, c, 3) == if c == GT then GT_ENTITY else [c];
      assert EntityFrom(t, c, 2) == if c == LT then LT_ENTITY else EntityFrom(t, c, 3);
      assert EntityFrom(t, c, 1) == if c == NBSP then NBSP_ENTITY else EntityFrom(t, c, 2);
    }
  }

  lemma HtmlTableValid()
    ensures ValidTable(HTML_TABLE, AMP)
    ensures forall k, j :: 0 <= k < |HTML_TABLE| && 0 < j < |HTML_TABLE[k].0| ==> HTML_TABLE[k].0[j] != AMP
  {
    var t := HTML_TABLE;
    assert t[0].1 == AMP;
    forall k, m | 0 <= k < |t| && 0 <= m < |t| && k != m ensures !HasPrefix(t[m].0, t[k].0) {
      if |t[k].0| <= |t[m].0| {
        assert t[m].0[..|t[k].0|][1] != t[k].0[1];
      }
    }
  }

  /** Parsing the markup back as text gives the original text. */
  lemma HtmlRoundTrip(s: JsString)
    ensures Decode(HTML_TABLE, EscapeHtml(s)) == s
  {
    HtmlTableValid();
    HtmlEntityIsTable();
    DecodeEscape(HTML_TABLE, AMP, HtmlEntity, s);
  }

  predicate HtmlSafeUnit(u: CodeUnit)
  {
    u != LT && u != GT && u != NBSP
  }

  /** Escaped HTML text has no raw `<`, `>` or no-break space, and every
      `&` starts one of the four entities. */
  lemma HtmlEscapeSafe(s: JsString)
    ensures forall i :: 0 <= i < |EscapeHtml(s)| ==> HtmlSafeUnit(EscapeHtml(s)[i])
    ensures forall i :: 0 <= i < |EscapeHtml(s)| && EscapeHtml(s)[i] == AMP ==> EntityAt(HTML_TABLE, EscapeHtml(s), i)
  {
    FlattenUnits(s, HtmlEntity, HtmlSafeUnit);
    HtmlTableValid();
    HtmlEntityIsTable();
    EscStartsEntity(HTML_TABLE, AMP, HtmlEntity, s);
  }

  // ---------------------------------------------------------------------
  // escapeRTF: the replace chains
  // ---------------------------------------------------------------------

  const BACKSLASH: CodeUnit := 0x5C
  const LBRACE: CodeUnit := 0x7B
  const RBRACE: CodeUnit := 0x7D
  const PAR: JsString := [BACKSLASH, 0x70, 0x61, 0x72, 0x20]         // \par followed by a space

  /** `.replace(/\\/g, '\\\\')` */
  function DoubleBackslash(c: CodeUnit): JsString
  {
    if c == BACKSLASH then [BACKSLASH, BACKSLASH] else [c]
  }

  /** `.replace(/\{/g, '\\{')` */
  function EscapeOpen(c: CodeUnit): JsString
  {
    if c == LBRACE then [BACKSLASH, LBRACE] else [c]
  }

  /** `.replace(/\}/g, '\\}')` */
  function EscapeClose(c: CodeUnit): JsString
  {
    if c == RBRACE then [BACKSLASH, RBRACE] else [c]
  }

  /** `.replace(/\n/g, '\\par ')` */
  function ParNewline(c: CodeUnit): JsString
  {
    if c == NEWLINE then PAR else [c]
  }

  /** `.replace(/[\u0080-￿]/g, m => '\\u' + m.charCodeAt(0) + '?')` */
  function UnicodeEscape(c: CodeUnit): JsString
  {
    if c >= 0x80 then [BACKSLASH, 0x75] + NatToDecimal(c) + [0x3F] else [c]
  }

  /** The four replaces both variants of `escapeRTF` start with, in order. */
  function RtfBasicChain(s: JsString): JsString
  {
    Flatten(Flatten(Flatten(Flatten(s, DoubleBackslash), EscapeOpen), EscapeClose), ParNewline)
  }

  /** `escapeRTF(text)` of script.js: the four replaces, then the Unicode escape. */
  function EscapeRtfChain(s: JsString): JsString
  {
    Flatten(RtfBasicChain(s), UnicodeEscape)
  }

  /** `escapeRTF(text)` of scripts/rtf-converter.js: anything but a string
      gives the empty string. */
  function EscapeRtfLocal(text: Json): JsString
  {
    match text
    case JStr(s) => RtfBasicChain(s)
    case _ => []
  }

  /** What the four basic replaces together make of one code unit. */
  function RtfBasicUnit(c: CodeUnit): JsString
  {
    if c == BACKSLASH then [BACKSLASH, BACKSLASH]
    else if c == LBRACE then [BACKSLASH, LBRACE]
    else if c == RBRACE then [BACKSLASH, RBRACE]
    else if c == NEWLINE then PAR
    else [c]
  }

  /** What the whole script.js chain makes of one code unit. */
  function RtfUnit(c: CodeUnit): JsString
  {
    if c >= 0x80 then [BACKSLASH, 0x75] + NatToDecimal(c) + [0x3F] else RtfBasicUnit(c)
  }

  lemma RtfBasicChainAppend(a: JsString, b: JsString)
    ensures RtfBasicChain(a + b) == RtfBasicChain(a) + RtfBasicChain(b)
  {
    var a1, b1 := Flatten(a, DoubleBackslash), Flatten(b, DoubleBackslash);
    FlattenAppend(a, b, DoubleBackslash);
    var a2, b2 := Flatten(a1, EscapeOpen), Flatten(b1, EscapeOpen);
    FlattenAppend(a1, b1, EscapeOpen);
    var a3, b3 := Flatten(a2, EscapeClose), Flatten(b2, EscapeClose);
    FlattenAppend(a2, b2, EscapeClose);
    FlattenAppend(a3, b3, ParNewline);
  }

  lemma RtfBasicChainUnit(c: CodeUnit)
    ensures RtfBasicChain([c]) == RtfBasicUnit(c)
  {
    FlattenUnit(c, DoubleBackslash);
    if c == BACKSLASH {
      RtfBasicChainEscaped([BACKSLASH, BACKSLASH], EscapeOpen);
    } else {
      FlattenUnit(c, EscapeOpen);
      if c == LBRACE {
        RtfBasicChainEscaped([BACKSLASH, LBRACE], EscapeClose);
      } else {
        RtfBasicChainTail(c);
      }
    }
  }

  /** A two-unit escape made by one replace is left alone by the replaces after it. */
  lemma RtfBasicChainEscaped(e: JsString, f: CodeUnit -> JsString)
    requires e == [BACKSLASH, BACKSLASH] || e == [BACKSLASH, LBRACE]
    requires f == EscapeOpen || f == EscapeClose
    requires e == [BACKSLASH, LBRACE] ==> f == EscapeClose
    ensures f == EscapeOpen ==> Flatten(Flatten(Flatten(e, EscapeOpen), EscapeClose), ParNewline) == e
    ensures f == EscapeClose ==> Flatten(Flatten(e, EscapeClose), ParNewline) == e
  {
    if f == EscapeOpen {
      FlattenIdentity(e, EscapeOpen);
    }
    FlattenIdentity(e, EscapeClose);
    FlattenIdentity(e, ParNewline);
  }

  lemma RtfBasicChainTail(c: CodeUnit)
    requires c != BACKSLASH && c != LBRACE
    ensures Flatten(Flatten([c], EscapeClose), ParNewline) == RtfBasicUnit(c)
  {
    FlattenUnit(c, EscapeClose);
    if c == RBRACE {
      FlattenIdentity([BACKSLASH, RBRACE], ParNewline);
    } else {
      FlattenUnit(c, ParNewline);
    }
  }

  /** Because backslashes are doubled first, the backslashes the later
      replaces introduce are never doubled again: the four replaces are
      the single per-unit map `RtfBasicUnit`. */
  lemma {:induction false} RtfBasicPerUnit(s: JsString)
    ensures RtfBasicChain(s) == Flatten(s, RtfBasicUnit)
    decreases |s|
  {
    if s != [] {
      var p, c := s[..|s| - 1], s[|s| - 1];
      assert s == p + [c];
      RtfBasicChainAppend(p, [c]);
      RtfBasicChainUnit(c);
      RtfBasicPerUnit(p);
    }
  }

  /** Replacing twice is replacing once with the composed replacement. */
  lemma {:induction false} FlattenFlatten(s: JsString, f: CodeUnit -> JsString, h: CodeUnit -> JsString, g: CodeUnit -> JsString)
    requires forall c :: Flatten(f(c), h) == g(c)
    ensures Flatten(Flatten(s, f), h) == Flatten(s, g)
    decreases |s|
  {
    if s != [] {
      FlattenFlatten(s[..|s| - 1], f, h, g);
      FlattenAppend(Flatten(s[..|s| - 1], f), f(s[|s| - 1]), h);
    }
  }

  lemma RtfUnitSplit(c: CodeUnit)
    ensures Flatten(RtfBasicUnit(c), UnicodeEscape) == RtfUnit(c)
  {
    if c == BACKSLASH || c == LBRACE || c == RBRACE || c == NEWLINE {
      FlattenIdentity(RtfBasicUnit(c), UnicodeEscape);
    } else {
      FlattenUnit(c, UnicodeEscape);
    }
  }

  /** The script.js chain is the per-unit map `RtfUnit`. */
  lemma EscapeRtfPerUnit(s: JsString)
    ensures EscapeRtfChain(s) == Flatten(s, RtfUnit)
  {
    RtfBasicPerUnit(s);
    forall c ensures Flatten(RtfBasicUnit(c), UnicodeEscape) == RtfUnit(c) {
      RtfUnitSplit(c);
    }
    FlattenFlatten(s, RtfBasicUnit, UnicodeEscape, RtfUnit);
  }

  /** Doubling backslashes after escaping braces would double the escape
      itself: `{` would come out as `\\{`, an escaped backslash and a bare brace. */
  lemma RtfOrderMatters()
    ensures Flatten(Flatten([LBRACE], EscapeOpen), DoubleBackslash) == [BACKSLASH, BACKSLASH, LBRACE]
    ensures Flatten(Flatten([LBRACE], DoubleBackslash), EscapeOpen) == [BACKSLASH, LBRACE]
  {
    FlattenUnit(LBRACE, EscapeOpen);
    FlattenUnit(LBRACE, DoubleBackslash);
    FlattenAppend([BACKSLASH], [LBRACE], DoubleBackslash);
    assert [BACKSLASH] + [LBRACE] == [BACKSLASH, LBRACE];
    FlattenUnit(BACKSLASH, DoubleBackslash);
  }

  predicate IsBrace(u: CodeUnit) { u == LBRACE || u == RBRACE }

  /** Number of backslashes that immediately precede the end of `s`. */
  function TrailingBackslashes(s: JsString): nat
    decreases |s|
  {
    if s != [] && s[|s| - 1] == BACKSLASH then TrailingBackslashes(s[..|s| - 1]) + 1 else 0
  }

  /** Every brace of `s` is escaped: an odd run of backslashes precedes it. */
  predicate BracesEscaped(s: JsString)
  {
    forall i {:trigger IsBrace(s[i])} :: 0 <= i < |s| && IsBrace(s[i]) ==> TrailingBackslashes(s[..i]) % 2 == 1
  }

  /** The shapes of replacement that keep braces escaped: an escaped
      backslash or brace, text with neither, or a control word (a
      backslash followed by text with neither). */
  predicate RtfToken(r: JsString)
  {
    || r == [BACKSLASH, BACKSLASH] || r == [BACKSLASH, LBRACE] || r == [BACKSLASH, RBRACE]
    || (forall i :: 0 <= i < |r| ==> r[i] != BACKSLASH && !IsBrace(r[i]))
    || (|r| >= 2 && r[0] == BACKSLASH && forall i :: 1 <= i < |r| ==> r[i] != BACKSLASH && !IsBrace(r[i]))
  }

  lemma BracesEscapedAppend(a: JsString, r: JsString)
    requires BracesEscaped(a) && TrailingBackslashes(a) % 2 == 0
    requires RtfToken(r)
    ensures BracesEscaped(a + r) && TrailingBackslashes(a + r) % 2 == 0
  {
    BracesEscapedExtend(a, r);
    TrailingAfterToken(a, r);
  }

  lemma BracesEscapedExtend(a: JsString, r: JsString)
    requires BracesEscaped(a) && TrailingBackslashes(a) % 2 == 0
    requires RtfToken(r)
    ensures BracesEscaped(a + r)
  {
    var s := a + r;
    forall i | 0 <= i < |s| && IsBrace(s[i]) ensures TrailingBackslashes(s[..i]) % 2 == 1 {
      if i < |a| {
        BraceInFront(a, r, i);
      } else {
        BraceInToken(a, r, i);
      }
    }
  }

  lemma BraceInFront(a: JsString, r: JsString, i: nat)
    requires BracesEscaped(a) && i < |a| && IsBrace((a + r)[i])
    ensures TrailingBackslashes((a + r)[..i]) % 2 == 1
  {
    assert (a + r)[..i] == a[..i] && (a + r)[i] == a[i];
  }

  lemma BraceInToken(a: JsString, r: JsString, i: nat)
    requires TrailingBackslashes(a) % 2 == 0 && RtfToken(r)
    requires |a| <= i < |a + r| && IsBrace((a + r)[i])
    ensures TrailingBackslashes((a + r)[..i]) % 2 == 1
  {
    TokenBraces(r);
    assert (a + r)[i] == r[i - |a|];
    OneMoreBackslash(a);
    assert (a + r)[..i] == a + [BACKSLASH];
  }

  /** The only brace a token holds is the second unit of `\{` or `\}`. */
  lemma TokenBraces(r: JsString)
    requires RtfToken(r)
    ensures forall j :: 0 <= j < |r| && IsBrace(r[j]) ==> j == 1 && r[0] == BACKSLASH
  {
  }

  lemma OneMoreBackslash(a: JsString)
    ensures TrailingBackslashes(a + [BACKSLASH]) == TrailingBackslashes(a) + 1
  {
    assert (a + [BACKSLASH])[..|a|] == a;
  }

  lemma TrailingAfterToken(a: JsString, r: JsString)
    requires TrailingBackslashes(a) % 2 == 0
    requires RtfToken(r)
    ensures TrailingBackslashes(a + r) % 2 == 0
  {
    var s := a + r;
    if r == [BACKSLASH, BACKSLASH] {
      OneMoreBackslash(a);
      OneMoreBackslash(a + [BACKSLASH]);
      assert s == (a + [BACKSLASH]) + [BACKSLASH];
    } else if r == [] {
      assert s == a;
    } else {
      assert s[|s| - 1] == r[|r| - 1];
    }
  }

  /** Replacing unit by unit with tokens keeps every brace escaped. */
  lemma {:induction false} FlattenBracesEscaped(s: JsString, f: CodeUnit -> JsString)
    requires forall c :: RtfToken(f(c))
    ensures BracesEscaped(Flatten(s, f)) && TrailingBackslashes(Flatten(s, f)) % 2 == 0
    decreases |s|
  {
    if s != [] {
      FlattenBracesEscaped(s[..|s| - 1], f);
      BracesEscapedAppend(Flatten(s[..|s| - 1], f), f(s[|s| - 1]));
    }
  }

  predicate RtfPlainUnit(u: CodeUnit)
  {
    IsAscii(u) && u != NEWLINE
  }

  /** The script.js `escapeRTF` output is ASCII, holds no raw line feed,
      and every brace in it is escaped. */
  lemma EscapeRtfOutput(s: JsString)
    ensures AllAscii(EscapeRtfChain(s))
    ensures forall i :: 0 <= i < |EscapeRtfChain(s)| ==> EscapeRtfChain(s)[i] != NEWLINE
    ensures BracesEscaped(EscapeRtfChain(s))
  {
    EscapeRtfPerUnit(s);
    EscapeRtfPlain(s);
    RtfUnitTokens();
    FlattenBracesEscaped(s, RtfUnit);
  }

  lemma EscapeRtfPlain(s: JsString)
    ensures forall i :: 0 <= i < |Flatten(s, RtfUnit)| ==> RtfPlainUnit(Flatten(s, RtfUnit)[i])
  {
    forall c: CodeUnit, j | 0 <= j < |RtfUnit(c)| ensures RtfPlainUnit(RtfUnit(c)[j]) {
      if c >= 0x80 {
        var d := NatToDecimal(c);
        if 2 <= j < 2 + |d| {
          assert RtfUnit(c)[j] == d[j - 2];
        }
      }
    }
    FlattenUnits(s, RtfUnit, RtfPlainUnit);
  }

  lemma RtfUnitTokens()
    ensures forall c: CodeUnit :: RtfToken(RtfUnit(c))
  {
    forall c: CodeUnit ensures RtfToken(RtfUnit(c)) {
      if c >= 0x80 {
        var d := NatToDecimal(c);
        var r := RtfUnit(c);
        forall i | 1 <= i < |r| ensures r[i] != BACKSLASH && !IsBrace(r[i]) {
          if 2 <= i < 2 + |d| {
            assert r[i] == d[i - 2];
          }
        }
      }
    }
  }

  /** Units other than `\`, `{`, `}` and line feed: the script.js chain
      keeps ASCII ones and writes each other one as `\u`, its decimal code
      and `?`. */
  lemma EscapeRtfUnicode(c: CodeUnit)
    requires c != BACKSLASH && c != LBRACE && c != RBRACE && c != NEWLINE
    ensures c >= 0x80 ==> EscapeRtfChain([c]) == [BACKSLASH, 0x75] + NatToDecimal(c) + [0x3F]
    ensures c < 0x80 ==> EscapeRtfChain([c]) == [c]
  {
    EscapeRtfPerUnit([c]);
    FlattenUnit(c, RtfUnit);
  }

  /** The escapes `rtf-converter.js` introduces, read back by an RTF reader. */
  const RTF_TABLE: Table := [([BACKSLASH, BACKSLASH], BACKSLASH), ([BACKSLASH, LBRACE], LBRACE), ([BACKSLASH, RBRACE], RBRACE), (PAR, NEWLINE)]

  lemma RtfBasicIsTable()
    ensures forall c :: RtfBasicUnit(c) == EntityOf(RTF_TABLE, c)
  {
    var t := RTF_TABLE;
    forall c ensures RtfBasicUnit(c) == EntityOf(t, c) {
      assert EntityFrom(t, c, 4) == [c];
      assert EntityFrom(t, c, 3) == if c == NEWLINE then PAR else [c];
      assert EntityFrom(t, c, 2) == if c == RBRACE then [BACKSLASH, RBRACE] else EntityFrom(t, c, 3);
      assert EntityFrom(t, c, 1) == if c == LBRACE then [BACKSLASH, LBRACE] else EntityFrom(t, c, 2);
    }
  }

  lemma RtfTableValid()
    ensures ValidTable(RTF_TABLE, BACKSLASH)
  {
    var t := RTF_TABLE;
    assert t[0].1 == BACKSLASH;
    forall k, m | 0 <= k < |t| && 0 <= m < |t| && k != m ensures !HasPrefix(t[m].0, t[k].0) {
      if |t[k].0| <= |t[m].0| {
        assert t[m].0[..|t[k].0|][1] != t[k].0[1];
      }
    }
  }

  /** The local `escapeRTF` is undone by reading its escapes back; a
      non-string gives the empty string. */
  lemma EscapeRtfLocalRoundTrip(text: Json)
    ensures text.JStr? ==> Decode(RTF_TABLE, EscapeRtfLocal(text)) == text.s
    ensures !text.JStr? ==> EscapeRtfLocal(text) == []
  {
    if text.JStr? {
      RtfBasicPerUnit(text.s);
      RtfTableValid();
      RtfBasicIsTable();
      DecodeEscape(RTF_TABLE, BACKSLASH, RtfBasicUnit, text.s);
    }
  }

  predicate NotNewline(u: CodeUnit) { u != NEWLINE }

  /** The local `escapeRTF` output holds no raw line feed and every brace
      in it is escaped. */
  lemma EscapeRtfLocalOutput(s: JsString)
    ensures forall i :: 0 <= i < |EscapeRtfLocal(JStr(s))| ==> EscapeRtfLocal(JStr(s))[i] != NEWLINE
    ensures BracesEscaped(EscapeRtfLocal(JStr(s)))
  {
    RtfBasicPerUnit(s);
    RtfBasicNoNewline(s);
    RtfBasicUnitTokens();
    FlattenBracesEscaped(s, RtfBasicUnit);
  }

  lemma RtfBasicNoNewline(s: JsString)
    ensures forall i :: 0 <= i < |Flatten(s, RtfBasicUnit)| ==> NotNewline(Flatten(s, RtfBasicUnit)[i])
  {
    FlattenUnits(s, RtfBasicUnit, NotNewline);
  }

  lemma RtfBasicUnitTokens()
    ensures forall c: CodeUnit :: RtfToken(RtfBasicUnit(c))
  {
  }

  /** Unlike the script.js variant, the local `escapeRTF` leaves every unit
      other than `\`, `{`, `}` and line feed as it is, non-ASCII ones included. */
  lemma EscapeRtfLocalIdentity(s: JsString)
    requires forall i :: 0 <= i < |s| ==> s[i] != BACKSLASH && !IsBrace(s[i]) && s[i] != NEWLINE
    ensures EscapeRtfLocal(JStr(s)) == s
  {
    RtfBasicPerUnit(s);
    FlattenIdentity(s, RtfBasicUnit);
  }
}
