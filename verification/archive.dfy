/** The ZIP archives the converters build, as the ordered list of
    `zip.file(path, data, options)` calls they make: the archive format
    itself belongs to the JSZip library and is not part of this model. */
module Archive {
  import opened JsText
  import opened Wrappers

  /** The data given to `zip.file`: a string, or `undefined` when the
      cover's data URL has no comma to split at. */
  datatype Payload = Text(s: JsString) | Undefined

  /** One archive entry with its two options: `{compression: 'STORE'}`
      and `{base64: true}`. */
  datatype Entry = Entry(path: JsString, data: Payload, store: bool, base64: bool)

  /** An entry with no options: deflated, and its data taken as text. */
  function TextEntry(path: JsString, text: JsString): (e: Entry)
    ensures !e.store && !e.base64 && e.path == path && e.data == Text(text)
  {
    Entry(path, Text(text), false, false)
  }

  function Paths(es: seq<Entry>): (r: seq<JsString>)
    ensures |r| == |es|
    ensures forall i :: 0 <= i < |es| ==> r[i] == es[i].path
  {
    seq(|es|, i requires 0 <= i < |es| => es[i].path)
  }

  /** Where the parts of an entry list `front + middle + optional + [last]`
      sit. */
  lemma EntriesParts(front: seq<Entry>, middle: seq<Entry>, optional: seq<Entry>, last: Entry)
    ensures var es := front + middle + optional + [last];
      && |es| == |front| + |middle| + |optional| + 1
      && es[..|front|] == front
      && (forall k :: 0 <= k < |middle| ==> es[|front| + k] == middle[k])
      && (forall k :: 0 <= k < |optional| ==> es[|front| + |middle| + k] == optional[k])
      && es[|es| - 1] == last
  {
    var es := front + middle + optional + [last];
    assert es[..|front|] == front;
    forall k | 0 <= k < |middle| ensures es[|front| + k] == middle[k] {
      assert es[|front| + k] == (front + middle)[|front| + k];
    }
  }

  predicate Plain(e: Entry) { !e.store && !e.base64 }

  /** In `front + middle + optional + [last]` where only the optional
      entries are base64 and none is stored, the base64 entries are
      exactly the positions of the optional part. */
  lemma PartsOptions(front: seq<Entry>, middle: seq<Entry>, optional: seq<Entry>, last: Entry)
    requires forall e :: e in front ==> Plain(e)
    requires forall e :: e in middle ==> Plain(e)
    requires forall e :: e in optional ==> !e.store && e.base64
    requires Plain(last)
    ensures var es := front + middle + optional + [last];
      && (forall i :: 0 <= i < |es| ==> !es[i].store)
      && (forall i :: 0 <= i < |es| ==> (es[i].base64 <==> |front| + |middle| <= i < |front| + |middle| + |optional|))
  {
    var es := front + middle + optional + [last];
    EntriesParts(front, middle, optional, last);
    forall i | 0 <= i < |es|
      ensures !es[i].store && (es[i].base64 <==> |front| + |middle| <= i < |front| + |middle| + |optional|)
    {
      if i < |front| {
        assert es[i] == es[..|front|][i];
        assert front[i] in front;
      } else if i < |front| + |middle| {
        assert middle[i - |front|] in middle;
      } else if i < |front| + |middle| + |optional| {
        assert optional[i - |front| - |middle|] in optional;
      }
    }
  }

  const COMMA: CodeUnit := 0x2C

  /** `data.split(',')[1]`: the text between the first and the second
      comma, or `undefined` when there is no comma at all. */
  function AfterFirstComma(data: JsString): Payload
  {
    var pieces := Split(data, [COMMA]);
    if |pieces| >= 2 then Text(pieces[1]) else Undefined
  }

  lemma {:induction false} SplitFromNoComma(s: JsString, current: JsString)
    requires COMMA !in s
    ensures SplitFrom(s, [COMMA], current) == [current + s]
    decreases |s|
  {
    if s == [] {
      assert current + s == current;
    } else {
      assert s[0] in s;
      assert s[..1] == [s[0]] != [COMMA];
      SplitFromNoComma(s[1..], current + [s[0]]);
      assert current + [s[0]] + s[1..] == current + s;
    }
  }

  lemma {:induction false} SplitFromAtComma(prefix: JsString, rest: JsString, current: JsString)
    requires COMMA !in prefix
    ensures SplitFrom(prefix + [COMMA] + rest, [COMMA], current) == [current + prefix] + SplitFrom(rest, [COMMA], [])
    decreases |prefix|
  {
    var s := prefix + [COMMA] + rest;
    if prefix == [] {
      assert s == [COMMA] + rest;
      assert s[..1] == [COMMA];
      assert s[1..] == rest;
      assert current + prefix == current;
    } else {
      assert prefix[0] in prefix;
      assert s[..1] == [prefix[0]] != [COMMA];
      assert s[1..] == prefix[1..] + [COMMA] + rest;
      SplitFromAtComma(prefix[1..], rest, current + [prefix[0]]);
      assert current + [prefix[0]] + prefix[1..] == current + prefix;
    }
  }

  /** A data URL `data:<type>;base64,<payload>` gives exactly its payload,
      since neither the header nor a base64 payload holds a comma; a text
      without a comma gives `undefined`. */
  lemma DataUrlPayload(header: JsString, payload: JsString)
    requires COMMA !in header && COMMA !in payload
    ensures AfterFirstComma(header + [COMMA] + payload) == Text(payload)
    ensures AfterFirstComma(header) == Undefined
  {
    SplitFromAtComma(header, payload, []);
    SplitFromNoComma(payload, []);
    SplitFromNoComma(header, []);
  }
}
