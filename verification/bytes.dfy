/** Byte buffers as the MOBI and AZW builders use them: a zero-filled
    `ArrayBuffer` written through a big-endian `DataView`, and
    `Uint8Array.set` copying one byte sequence into another. */
module Bytes {
  import opened JsText

  function Pow256(n: nat): (r: nat)
    ensures r >= 1
  {
    if n == 0 then 1 else 256 * Pow256(n - 1)
  }

  /** The `n` low-order bytes of `v`, most significant first: with
      Euclidean division these are the base-256 digits of `v` modulo
      256^n. */
  function BigEndian(v: int, n: nat): (r: seq<Byte>)
    ensures |r| == n
    decreases n
  {
    if n == 0 then [] else BigEndian(v / 256, n - 1) + [v % 256]
  }

  /** The number a big-endian byte sequence stands for. */
  function BigEndianValue(bytes: seq<Byte>): nat
  {
    if bytes == [] then 0 else BigEndianValue(bytes[..|bytes| - 1]) * 256 + bytes[|bytes| - 1]
  }

  /** Writing a number that fits and reading it back gives the number. */
  lemma {:induction false} BigEndianRoundTrip(v: int, n: nat)
    requires 0 <= v < Pow256(n)
    ensures BigEndianValue(BigEndian(v, n)) == v
  {
    if n > 0 {
      BigEndianRoundTrip(v / 256, n - 1);
      var r := BigEndian(v, n);
      assert r[..n - 1] == BigEndian(v / 256, n - 1);
    }
  }

  /** ToUint16: the value `setUint16` stores. */
  function ToUint16(v: int): (r: int)
    ensures 0 <= r < 0x1_0000
  {
    v % 0x1_0000
  }

  /** ToUint32: the value `setUint32` stores. */
  function ToUint32(v: int): (r: int)
    ensures 0 <= r < 0x1_0000_0000
  {
    v % 0x1_0000_0000
  }

  function Uint16Bytes(v: int): (r: seq<Byte>)
    ensures |r| == 2
  {
    BigEndian(ToUint16(v), 2)
  }

  function Uint32Bytes(v: int): (r: seq<Byte>)
    ensures |r| == 4
  {
    BigEndian(ToUint32(v), 4)
  }

  /** The two bytes `setUint16` writes stand for the value modulo 2^16. */
  lemma Uint16Value(v: int)
    ensures BigEndianValue(Uint16Bytes(v)) == v % 0x1_0000
  {
    BigEndianRoundTrip(ToUint16(v), 2);
  }

  /** The four bytes `setUint32` writes stand for the value modulo 2^32. */
  lemma Uint32Value(v: int)
    ensures BigEndianValue(Uint32Bytes(v)) == v % 0x1_0000_0000
  {
    BigEndianRoundTrip(ToUint32(v), 4);
  }

  function Zeros(n: nat): (r: seq<Byte>)
    ensures |r| == n && forall i :: 0 <= i < n ==> r[i] == 0
  {
    seq(n, i => 0)
  }

  // ---------------------------------------------------------------------
  // Writes
  // ---------------------------------------------------------------------

  /** `target.set(bytes, offset)`: the bytes at `offset` are replaced and
      nothing else changes. */
  method SetBytes(a: array<Byte>, offset: nat, bytes: seq<Byte>)
    requires offset + |bytes| <= a.Length
    modifies a
    ensures a[..] == old(a[..])[..offset] + bytes + old(a[..])[offset + |bytes|..]
  {
    ghost var before := a[..];
    var k := 0;
    while k < |bytes|
      invariant k <= |bytes|
      invariant forall i :: 0 <= i < a.Length ==> a[i] == if offset <= i < offset + k then bytes[i - offset] else before[i]
    {
      a[offset + k] := bytes[k];
      k := k + 1;
    }
    assert a[..] == before[..offset] + bytes + before[offset + |bytes|..];
  }

  /** `view.setUint8(offset, v)` */
  method SetUint8(a: array<Byte>, offset: nat, v: int)
    requires offset < a.Length
    modifies a
    ensures a[..] == old(a[..])[..offset] + [v % 256] + old(a[..])[offset + 1..]
  {
    SetBytes(a, offset, [v % 256]);
  }

  /** `view.setUint16(offset, v)`, big-endian. */
  method SetUint16(a: array<Byte>, offset: nat, v: int)
    requires offset + 2 <= a.Length
    modifies a
    ensures a[..] == old(a[..])[..offset] + Uint16Bytes(v) + old(a[..])[offset + 2..]
  {
    SetBytes(a, offset, Uint16Bytes(v));
  }

  /** `view.setUint32(offset, v)`, big-endian. */
  method SetUint32(a: array<Byte>, offset: nat, v: int)
    requires offset + 4 <= a.Length
    modifies a
    ensures a[..] == old(a[..])[..offset] + Uint32Bytes(v) + old(a[..])[offset + 4..]
  {
    SetBytes(a, offset, Uint32Bytes(v));
  }

  /** A buffer written from the front: `done` is written and the rest is
      still zero. Writing `field` after a gap of `gap` zero bytes leaves
      `done`, the gap, the field and zeros. */
  lemma WriteAt(done: seq<Byte>, gap: nat, field: seq<Byte>, rest: nat)
    requires gap + |field| <= rest
    ensures var s := done + Zeros(rest);
      s[..|done| + gap] + field + s[|done| + gap + |field|..] == done + Zeros(gap) + field + Zeros(rest - gap - |field|)
    ensures var s := done + Zeros(rest);
      gap == 0 ==> s[..|done|] + field + s[|done| + |field|..] == done + field + Zeros(rest - |field|)
  {
    var s := done + Zeros(rest);
    assert s[..|done| + gap] == done + Zeros(gap);
    assert s[|done| + gap + |field|..] == Zeros(rest - gap - |field|);
    if gap == 0 {
      assert s[..|done|] == done;
    }
  }

  /** The buffer holds `done` at its front and zeros after it. */
  ghost predicate WrittenUpTo(a: seq<Byte>, done: seq<Byte>)
  {
    |done| <= |a| && a == done + Zeros(|a| - |done|)
  }

  /** A write at `offset` at or past the written front `done`: the front
      grows by the gap of zeros and the bytes written. */
  method Put(a: array<Byte>, ghost done: seq<Byte>, offset: nat, bytes: seq<Byte>)
    requires WrittenUpTo(a[..], done) && |done| <= offset && offset + |bytes| <= a.Length
    modifies a
    ensures WrittenUpTo(a[..], done + Zeros(offset - |done|) + bytes)
    ensures offset == |done| ==> WrittenUpTo(a[..], done + bytes)
  {
    ghost var rest := a.Length - |done|;
    SetBytes(a, offset, bytes);
    WriteAt(done, offset - |done|, bytes, rest);
  }

  /** `view.setUint16(offset, v)` past the written front. */
  method PutUint16(a: array<Byte>, ghost done: seq<Byte>, offset: nat, v: int)
    requires WrittenUpTo(a[..], done) && |done| <= offset && offset + 2 <= a.Length
    modifies a
    ensures WrittenUpTo(a[..], done + Zeros(offset - |done|) + Uint16Bytes(v))
    ensures offset == |done| ==> WrittenUpTo(a[..], done + Uint16Bytes(v))
  {
    ghost var rest := a.Length - |done|;
    SetUint16(a, offset, v);
    WriteAt(done, offset - |done|, Uint16Bytes(v), rest);
  }

  /** `view.setUint32(offset, v)` past the written front. */
  method PutUint32(a: array<Byte>, ghost done: seq<Byte>, offset: nat, v: int)
    requires WrittenUpTo(a[..], done) && |done| <= offset && offset + 4 <= a.Length
    modifies a
    ensures WrittenUpTo(a[..], done + Zeros(offset - |done|) + Uint32Bytes(v))
    ensures offset == |done| ==> WrittenUpTo(a[..], done + Uint32Bytes(v))
  {
    ghost var rest := a.Length - |done|;
    SetUint32(a, offset, v);
    WriteAt(done, offset - |done|, Uint32Bytes(v), rest);
  }

  /** A new `Uint8Array` sized for three parts, filled by one `set` per
      part at the running offset. */
  method Concat3(x: seq<Byte>, y: seq<Byte>, z: seq<Byte>) returns (a: array<Byte>)
    ensures a[..] == x + y + z
  {
    a := new Byte[|x| + |y| + |z|](i => 0);
    assert WrittenUpTo(a[..], []);
    Put(a, [], 0, x);
    assert [] + x == x;
    Put(a, x, |x|, y);
    Put(a, x + y, |x| + |y|, z);
    assert x + y + z + Zeros(0) == x + y + z;
  }

  /** A new `Uint8Array` sized for two parts, filled by one `set` each. */
  method Concat2(x: seq<Byte>, y: seq<Byte>) returns (a: array<Byte>)
    ensures a[..] == x + y
  {
    a := new Byte[|x| + |y|](i => 0);
    assert WrittenUpTo(a[..], []);
    Put(a, [], 0, x);
    assert [] + x == x;
    Put(a, x, |x|, y);
    assert x + y + Zeros(0) == x + y;
  }
}
