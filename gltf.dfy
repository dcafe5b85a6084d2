/** Byte-level helpers of the vendored glTF exporter
    (src/runtime/GLTFExporter.js): plugin registration, array equality,
    the Latin-1 fallback string encoder, 4-byte alignment of buffers
    ("Data Alignment" in the Khronos glTF 2.0 specification), per-component
    minimum and maximum of an attribute, and the layout of a binary glTF file
    (chapter 4, "GLB File Format Specification", of the same specification). */
module Gltf {

  newtype byte = x: int | 0 <= x < 0x100

  /** A UTF-16 code unit, what `charCodeAt` returns. */
  newtype CodeUnit = x: int | 0 <= x < 0x1_0000

  predicate Distinct<T(==)>(s: seq<T>) {
    forall i, j :: 0 <= i < j < |s| ==> s[i] != s[j]
  }

  // ---------------------------------------------------------------------------
  // Plugin callbacks

  /** A plugin callback; callbacks are compared by identity. */
  datatype Callback = Callback(id: nat)

  /** `Array.prototype.indexOf`: the first position holding `c`, or -1. */
  function IndexOf(s: seq<Callback>, c: Callback): (i: int)
    ensures -1 <= i < |s|
    ensures i == -1 <==> c !in s
    ensures 0 <= i ==> s[i] == c && c !in s[..i]
  {
    if s == [] then -1
    else if s[0] == c then 0
    else
      var j := IndexOf(s[1..], c);
      if j == -1 then -1
      else
        assert s[..j + 1] == [s[0]] + s[1..][..j];
        j + 1
  }

  /** The callback list after `register(c)`. */
  function Registered(s: seq<Callback>, c: Callback): seq<Callback> {
    if IndexOf(s, c) == -1 then s + [c] else s
  }

  /** The callback list after `unregister(c)`. */
  function Unregistered(s: seq<Callback>, c: Callback): seq<Callback> {
    var k := IndexOf(s, c);
    if k == -1 then s else s[..k] + s[k + 1..]
  }

  /** Registering is idempotent, always leaves the callback registered and
      never introduces a duplicate. */
  lemma RegisterIdempotent(s: seq<Callback>, c: Callback)
    ensures c in Registered(s, c)
    ensures Registered(Registered(s, c), c) == Registered(s, c)
    ensures Distinct(s) ==> Distinct(Registered(s, c))
  {
    assert c in s + [c] by {
      assert (s + [c])[|s|] == c;
    }
  }

  /** Unregistering removes exactly one occurrence when there is one and
      changes nothing otherwise. */
  lemma UnregisterRemovesOne(s: seq<Callback>, c: Callback)
    ensures c in s ==> multiset(Unregistered(s, c)) == multiset(s) - multiset{c}
    ensures c !in s ==> Unregistered(s, c) == s
  {
    var k := IndexOf(s, c);
    if k != -1 {
      assert s == s[..k] + [c] + s[k + 1..];
    }
  }

  /** On a list without duplicates, unregistering leaves no occurrence of the
      callback and no duplicate. */
  lemma UnregisterKeepsDistinct(s: seq<Callback>, c: Callback)
    requires Distinct(s)
    ensures c !in Unregistered(s, c)
    ensures Distinct(Unregistered(s, c))
  {
    var k := IndexOf(s, c);
    if k != -1 {
      var r := s[..k] + s[k + 1..];
      assert forall i :: 0 <= i < |r| ==> r[i] == s[if i < k then i else i + 1];
      forall i | 0 <= i < |r|
        ensures r[i] != c
      {
        assert r[i] == s[if i < k then i else i + 1];
      }
    }
  }

  /** Unregistering a callback that was just registered restores the list. */
  lemma UnregisterUndoesRegister(s: seq<Callback>, c: Callback)
    requires c !in s
    ensures Unregistered(Registered(s, c), c) == s
  {
    var r := s + [c];
    assert r[|s|] == c;
    assert r[..|s|] == s;
    var k := IndexOf(r, c);
    assert r[k] == c;
    assert k == |s|;
  }

  /** The exporter's mutable state: the registered plugin callbacks. */
  class GLTFExporter {
    var pluginCallbacks: seq<Callback>

    /** The three built-in extensions are registered, each a fresh callback. */
    constructor(light: Callback, unlit: Callback, specularGlossiness: Callback)
      requires Distinct([light, unlit, specularGlossiness])
      ensures pluginCallbacks == [light, unlit, specularGlossiness]
    {
      pluginCallbacks := [];
      new;
      assert light != unlit && light != specularGlossiness && unlit != specularGlossiness by {
        var l := [light, unlit, specularGlossiness];
        assert l[0] != l[1] && l[0] != l[2] && l[1] != l[2];
      }
      var self := Register(light);
      assert pluginCallbacks == [light];
      self := Register(unlit);
      assert pluginCallbacks == [light, unlit];
      self := Register(specularGlossiness);
    }

    /** Appends the callback unless it is already present; returns `this`. */
    method Register(callback: Callback) returns (self: GLTFExporter)
      modifies this
      ensures self == this
      ensures pluginCallbacks == Registered(old(pluginCallbacks), callback)
    {
      if IndexOf(pluginCallbacks, callback) == -1 {
        pluginCallbacks := pluginCallbacks + [callback];
      }
      self := this;
    }

    /** Removes the first occurrence of the callback, if any; returns `this`. */
    method Unregister(callback: Callback) returns (self: GLTFExporter)
      modifies this
      ensures self == this
      ensures pluginCallbacks == Unregistered(old(pluginCallbacks), callback)
    {
      if IndexOf(pluginCallbacks, callback) != -1 {
        var k := IndexOf(pluginCallbacks, callback);
        pluginCallbacks := pluginCallbacks[..k] + pluginCallbacks[k + 1..];
      }
      self := this;
    }
  }

  // ---------------------------------------------------------------------------
  // equalArray and isIdentityMatrix

  /** `equalArray`: same length and `===` element by element. */
  function EqualArray(a: seq<real>, b: seq<real>): (r: bool)
    ensures r <==> a == b
  {
    |a| == |b| && forall i :: 0 <= i < |a| ==> a[i] == b[i]
  }

  const IdentityElements: seq<real> :=
    [1.0, 0.0, 0.0, 0.0, 0.0, 1.0, 0.0, 0.0, 0.0, 0.0, 1.0, 0.0, 0.0, 0.0, 0.0, 1.0]

  function IsIdentityMatrix(elements: seq<real>): (r: bool)
    ensures r <==> elements == IdentityElements
  {
    EqualArray(elements, IdentityElements)
  }

  /** A matrix is the identity exactly when its 16 elements are 1 on the
      diagonal (every fifth element) and 0 elsewhere. */
  lemma IdentityIsDiagonal(elements: seq<real>)
    ensures IsIdentityMatrix(elements) <==>
              |elements| == 16 && forall i :: 0 <= i < 16 ==> elements[i] == if i % 5 == 0 then 1.0 else 0.0
  {
    forall i | 0 <= i < 16
      ensures IdentityElements[i] == if i % 5 == 0 then 1.0 else 0.0
    {
    }
    if |elements| == 16 && forall i :: 0 <= i < 16 ==> elements[i] == if i % 5 == 0 then 1.0 else 0.0 {
      assert elements == IdentityElements;
    }
  }

  // ---------------------------------------------------------------------------
  // stringToArrayBuffer without TextEncoder

  /** A code unit up to 0xFF is kept; a wider one becomes a space (0x20). */
  function Latin1Byte(c: CodeUnit): byte {
    if c > 0xFF then 0x20 else c as int as byte
  }

  function Latin1Encode(text: seq<CodeUnit>): seq<byte> {
    seq(|text|, i requires 0 <= i < |text| => Latin1Byte(text[i]))
  }

  /** Reads bytes back as code units. */
  function Widen(bytes: seq<byte>): seq<CodeUnit> {
    seq(|bytes|, i requires 0 <= i < |bytes| => bytes[i] as int as CodeUnit)
  }

  /** The encoding keeps the length; text made of code units up to 0xFF
      decodes back to itself; every wider code unit becomes a space. */
  lemma Latin1RoundTrip(text: seq<CodeUnit>)
    ensures |Latin1Encode(text)| == |text|
    ensures (forall i :: 0 <= i < |text| ==> text[i] <= 0xFF) ==> Widen(Latin1Encode(text)) == text
    ensures forall i :: 0 <= i < |text| && text[i] > 0xFF ==> Latin1Encode(text)[i] == 0x20
  {
    if forall i :: 0 <= i < |text| ==> text[i] <= 0xFF {
      var w := Widen(Latin1Encode(text));
      forall i | 0 <= i < |text|
        ensures w[i] == text[i]
      {
      }
    }
  }

  /** The fallback branch of stringToArrayBuffer: one byte per code unit. */
  method StringToArrayBuffer(text: seq<CodeUnit>) returns (buffer: array<byte>)
    ensures buffer.Length == |text|
    ensures buffer[..] == Latin1Encode(text)
  {
    buffer := new byte[|text|];
    var i := 0;
    while i < |text|
      invariant 0 <= i <= |text|
      invariant forall k :: 0 <= k < i ==> buffer[k] == Latin1Byte(text[k])
    {
      var value := text[i];
      buffer[i] := if value > 0xFF then 0x20 else value as int as byte;
      i := i + 1;
    }
  }

  // ---------------------------------------------------------------------------
  // Data alignment

  /** `Math.ceil(bufferSize / 4) * 4`: the next multiple of four. */
  function PaddedBufferSize(bufferSize: nat): (r: nat)
    ensures r % 4 == 0 && bufferSize <= r <= bufferSize + 3
  {
    ((bufferSize + 3) / 4) * 4
  }

  /** No multiple of four at least the size is smaller than the padded size,
      and an aligned size is its own padded size. */
  lemma PaddedSizeIsLeast(bufferSize: nat, m: nat)
    requires m % 4 == 0 && bufferSize <= m
    ensures PaddedBufferSize(bufferSize) <= m
    ensures bufferSize % 4 == 0 ==> PaddedBufferSize(bufferSize) == bufferSize
  {
  }

  /** The bytes followed by `paddingByte` up to the padded length. */
  function Padded(bytes: seq<byte>, paddingByte: byte): seq<byte> {
    bytes + seq(PaddedBufferSize(|bytes|) - |bytes|, _ => paddingByte)
  }

  /** The padded buffer has an aligned length, starts with the original
      bytes, ends with at most three padding bytes, and is the original when
      that was already aligned. */
  lemma PaddedFacts(bytes: seq<byte>, paddingByte: byte)
    ensures |Padded(bytes, paddingByte)| % 4 == 0
    ensures |bytes| <= |Padded(bytes, paddingByte)| <= |bytes| + 3
    ensures Padded(bytes, paddingByte)[..|bytes|] == bytes
    ensures forall i :: |bytes| <= i < |Padded(bytes, paddingByte)| ==> Padded(bytes, paddingByte)[i] == paddingByte
    ensures |bytes| % 4 == 0 ==> Padded(bytes, paddingByte) == bytes
  {
    if |bytes| % 4 == 0 {
      PaddedSizeIsLeast(|bytes|, |bytes|);
    }
  }

  /** getPaddedArrayBuffer: the same buffer when already aligned, otherwise a
      new zero-filled buffer of the padded length holding the bytes, with the
      padding bytes set when `paddingByte` is not zero. */
  method GetPaddedArrayBuffer(buffer: array<byte>, paddingByte: byte) returns (out: array<byte>)
    ensures out[..] == Padded(buffer[..], paddingByte)
    ensures buffer.Length % 4 == 0 ==> out == buffer
    ensures buffer.Length % 4 != 0 ==> fresh(out)
  {
    var paddedLength := PaddedBufferSize(buffer.Length);
    if paddedLength != buffer.Length {
      var padded := new byte[paddedLength](_ => 0);
      forall i | 0 <= i < buffer.Length {
        padded[i] := buffer[i];
      }
      if paddingByte != 0 {
        var i := buffer.Length;
        while i < paddedLength
          invariant buffer.Length <= i <= paddedLength
          invariant forall k :: 0 <= k < buffer.Length ==> padded[k] == buffer[k]
          invariant forall k :: buffer.Length <= k < i ==> padded[k] == paddingByte
          invariant forall k :: i <= k < paddedLength ==> padded[k] == 0
        {
          padded[i] := paddingByte;
          i := i + 1;
        }
      }
      assert padded[..] == Padded(buffer[..], paddingByte);
      return padded;
    }
    PaddedFacts(buffer[..], paddingByte);
    return buffer;
  }

  // ---------------------------------------------------------------------------
  // getMinMax

  /** A number or one of the infinities the accumulators start from. */
  datatype ExtReal = NegInf | Finite(r: real) | PosInf

  predicate Le(a: ExtReal, b: ExtReal) {
    a.NegInf? || b.PosInf? || (a.Finite? && b.Finite? && a.r <= b.r)
  }

  /** `Math.min` and `Math.max` of an accumulator and a number. */
  function MinWith(a: ExtReal, v: real): ExtReal {
    if a.Finite? && a.r <= v then a else if a.NegInf? then a else Finite(v)
  }

  function MaxWith(a: ExtReal, v: real): ExtReal {
    if a.Finite? && a.r >= v then a else if a.PosInf? then a else Finite(v)
  }

  /** An attribute as its items, each of `itemSize` components, as the
      accessors getX, getY, getZ, getW and getComponent present it. */
  predicate Shaped(items: seq<seq<real>>, itemSize: nat) {
    forall i :: 0 <= i < |items| ==> |items[i]| == itemSize
  }

  /** The minimum and maximum of component `a` over items [start, start + n),
      starting from +Infinity and -Infinity. */
  function ComponentMin(items: seq<seq<real>>, itemSize: nat, a: nat, start: nat, n: nat): ExtReal
    requires Shaped(items, itemSize) && a < itemSize && start + n <= |items|
  {
    if n == 0 then PosInf
    else MinWith(ComponentMin(items, itemSize, a, start, n - 1), items[start + n - 1][a])
  }

  function ComponentMax(items: seq<seq<real>>, itemSize: nat, a: nat, start: nat, n: nat): ExtReal
    requires Shaped(items, itemSize) && a < itemSize && start + n <= |items|
  {
    if n == 0 then NegInf
    else MaxWith(ComponentMax(items, itemSize, a, start, n - 1), items[start + n - 1][a])
  }

  /** Over at least one item the minimum is a number no larger than the
      component of any item, and some item attains it. */
  lemma {:induction false} ComponentMinBounds(items: seq<seq<real>>, itemSize: nat, a: nat, start: nat, n: nat)
    requires Shaped(items, itemSize) && a < itemSize && start + n <= |items| && n >= 1
    ensures ComponentMin(items, itemSize, a, start, n).Finite?
    ensures forall i :: start <= i < start + n ==> ComponentMin(items, itemSize, a, start, n).r <= items[i][a]
    ensures exists i :: start <= i < start + n && ComponentMin(items, itemSize, a, start, n).r == items[i][a]
  {
    var v := items[start + n - 1][a];
    if n == 1 {
      assert ComponentMin(items, itemSize, a, start, 0) == PosInf;
      assert ComponentMin(items, itemSize, a, start, n) == Finite(v);
    } else {
      ComponentMinBounds(items, itemSize, a, start, n - 1);
      var m := ComponentMin(items, itemSize, a, start, n - 1).r;
      var w :| start <= w < start + n - 1 && m == items[w][a];
      if m <= v {
        assert ComponentMin(items, itemSize, a, start, n) == Finite(m);
        assert ComponentMin(items, itemSize, a, start, n).r == items[w][a];
      } else {
        assert ComponentMin(items, itemSize, a, start, n) == Finite(v);
        assert ComponentMin(items, itemSize, a, start, n).r == items[start + n - 1][a];
      }
    }
  }

  /** Over at least one item the maximum is a number no smaller than the
      component of any item, and some item attains it. */
  lemma {:induction false} ComponentMaxBounds(items: seq<seq<real>>, itemSize: nat, a: nat, start: nat, n: nat)
    requires Shaped(items, itemSize) && a < itemSize && start + n <= |items| && n >= 1
    ensures ComponentMax(items, itemSize, a, start, n).Finite?
    ensures forall i :: start <= i < start + n ==> items[i][a] <= ComponentMax(items, itemSize, a, start, n).r
    ensures exists i :: start <= i < start + n && ComponentMax(items, itemSize, a, start, n).r == items[i][a]
  {
    var v := items[start + n - 1][a];
    if n == 1 {
      assert ComponentMax(items, itemSize, a, start, 0) == NegInf;
      assert ComponentMax(items, itemSize, a, start, n) == Finite(v);
    } else {
      ComponentMaxBounds(items, itemSize, a, start, n - 1);
      var m := ComponentMax(items, itemSize, a, start, n - 1).r;
      var w :| start <= w < start + n - 1 && m == items[w][a];
      if m >= v {
        assert ComponentMax(items, itemSize, a, start, n) == Finite(m);
        assert ComponentMax(items, itemSize, a, start, n).r == items[w][a];
      } else {
        assert ComponentMax(items, itemSize, a, start, n) == Finite(v);
        assert ComponentMax(items, itemSize, a, start, n).r == items[start + n - 1][a];
      }
    }
  }

  /** Over no item the bounds stay at their infinite seeds; over at least one
      the minimum is at most the maximum. */
  lemma MinAtMostMax(items: seq<seq<real>>, itemSize: nat, a: nat, start: nat, n: nat)
    requires Shaped(items, itemSize) && a < itemSize && start + n <= |items|
    ensures n == 0 ==> ComponentMin(items, itemSize, a, start, n) == PosInf
                       && ComponentMax(items, itemSize, a, start, n) == NegInf
    ensures n >= 1 ==> Le(ComponentMin(items, itemSize, a, start, n), ComponentMax(items, itemSize, a, start, n))
  {
    if n >= 1 {
      ComponentMinBounds(items, itemSize, a, start, n);
      ComponentMaxBounds(items, itemSize, a, start, n);
      assert ComponentMin(items, itemSize, a, start, n).r <= items[start][a];
    }
  }

  /** getMinMax over items [start, start + count) of an attribute. */
  method GetMinMax(items: seq<seq<real>>, itemSize: nat, start: nat, count: nat)
    returns (min: seq<ExtReal>, max: seq<ExtReal>)
    requires Shaped(items, itemSize) && start + count <= |items|
    ensures |min| == itemSize && |max| == itemSize
    ensures forall a :: 0 <= a < itemSize ==>
              min[a] == ComponentMin(items, itemSize, a, start, count)
              && max[a] == ComponentMax(items, itemSize, a, start, count)
  {
    min := seq(itemSize, _ => PosInf);
    max := seq(itemSize, _ => NegInf);
    var i := start;
    while i < start + count
      invariant start <= i <= start + count
      invariant |min| == itemSize && |max| == itemSize
      invariant forall a :: 0 <= a < itemSize ==>
                  min[a] == ComponentMin(items, itemSize, a, start, i - start)
                  && max[a] == ComponentMax(items, itemSize, a, start, i - start)
    {
      var a := 0;
      while a < itemSize
        invariant 0 <= a <= itemSize
        invariant |min| == itemSize && |max| == itemSize
        invariant forall b :: 0 <= b < a ==>
                    min[b] == ComponentMin(items, itemSize, b, start, i + 1 - start)
                    && max[b] == ComponentMax(items, itemSize, b, start, i + 1 - start)
        invariant forall b :: a <= b < itemSize ==>
                    min[b] == ComponentMin(items, itemSize, b, start, i - start)
                    && max[b] == ComponentMax(items, itemSize, b, start, i - start)
      {
        var value := items[i][a];
        min := min[a := MinWith(min[a], value)];
        max := max[a := MaxWith(max[a], value)];
        a := a + 1;
      }
      i := i + 1;
    }
  }

  // ---------------------------------------------------------------------------
  // Binary glTF

  const GlbHeaderBytes := 12
  const GlbHeaderMagic := 0x46546C67
  const GlbVersion := 2
  const GlbChunkPrefixBytes := 8
  const GlbChunkTypeJson := 0x4E4F534A
  const GlbChunkTypeBin := 0x004E4942

  /** `DataView.setUint32(offset, v, true)`: four bytes, least significant
      first, of `v` reduced modulo 2^32. */
  function Uint32LE(v: nat): (b: seq<byte>)
    ensures |b| == 4
  {
    [(v % 0x100) as byte, ((v / 0x100) % 0x100) as byte,
     ((v / 0x1_0000) % 0x100) as byte, ((v / 0x100_0000) % 0x100) as byte]
  }

  /** Reading four little-endian bytes back as a number. */
  function ReadUint32LE(b: seq<byte>): nat
    requires |b| == 4
  {
    b[0] as nat + 0x100 * (b[1] as nat + 0x100 * (b[2] as nat + 0x100 * b[3] as nat))
  }

  lemma DivMod256(v: nat)
    ensures v == v % 0x100 + 0x100 * (v / 0x100)
  {
  }

  lemma DivDiv256(v: nat)
    ensures v / 0x1_0000 == (v / 0x100) / 0x100
    ensures v / 0x100_0000 == ((v / 0x100) / 0x100) / 0x100
  {
  }

  /** A 32-bit value survives being written and read back. */
  lemma Uint32RoundTrip(v: nat)
    requires v < 0x1_0000_0000
    ensures ReadUint32LE(Uint32LE(v)) == v
  {
    var q1 := v / 0x100;
    var q2 := q1 / 0x100;
    var q3 := q2 / 0x100;
    DivMod256(v);
    DivMod256(q1);
    DivMod256(q2);
    DivDiv256(v);
    assert q3 < 0x100;
    assert q3 % 0x100 == q3;
  }

  /** The magic number reads "glTF" and the chunk types "JSON" and "BIN\0". */
  lemma GlbTagsSpellAscii()
    ensures Uint32LE(GlbHeaderMagic) == [0x67, 0x6C, 0x54, 0x46]
    ensures Uint32LE(GlbChunkTypeJson) == [0x4A, 0x53, 0x4F, 0x4E]
    ensures Uint32LE(GlbChunkTypeBin) == [0x42, 0x49, 0x4E, 0x00]
  {
  }

  /** A chunk behind its length and type. */
  function Chunk(data: seq<byte>, chunkType: nat): (r: seq<byte>)
    ensures |r| == GlbChunkPrefixBytes + |data|
  {
    Uint32LE(|data|) + Uint32LE(chunkType) + data
  }

  /** The total length the header records. */
  function GlbTotalLength(jsonChunk: seq<byte>, binaryChunk: seq<byte>): nat {
    GlbHeaderBytes + GlbChunkPrefixBytes + |jsonChunk| + GlbChunkPrefixBytes + |binaryChunk|
  }

  /** The file the binary export assembles: header, JSON chunk padded with
      spaces, binary chunk padded with zeros. */
  function GlbFile(json: seq<byte>, binary: seq<byte>): seq<byte> {
    var jsonChunk := Padded(json, 0x20);
    var binaryChunk := Padded(binary, 0);
    var header := Uint32LE(GlbHeaderMagic) + Uint32LE(GlbVersion) + Uint32LE(GlbTotalLength(jsonChunk, binaryChunk));
    header + (Chunk(jsonChunk, GlbChunkTypeJson) + Chunk(binaryChunk, GlbChunkTypeBin))
  }

  lemma AlignedSum(p1: nat, p2: nat)
    requires p1 % 4 == 0 && p2 % 4 == 0
    ensures (28 + p1 + p2) % 4 == 0
  {
    var k1 := p1 / 4;
    var k2 := p2 / 4;
    assert p1 == 4 * k1 && p2 == 4 * k2;
    assert 28 + p1 + p2 == 4 * (7 + k1 + k2);
  }

  /** The file is 28 bytes of header and chunk prefixes plus both padded
      chunks, a multiple of four. */
  lemma GlbFileLength(json: seq<byte>, binary: seq<byte>)
    ensures |GlbFile(json, binary)| == GlbTotalLength(Padded(json, 0x20), Padded(binary, 0))
    ensures |GlbFile(json, binary)| == 28 + PaddedBufferSize(|json|) + PaddedBufferSize(|binary|)
    ensures |GlbFile(json, binary)| % 4 == 0
  {
    var p1 := PaddedBufferSize(|json|);
    var p2 := PaddedBufferSize(|binary|);
    assert |Padded(json, 0x20)| == p1;
    assert |Padded(binary, 0)| == p2;
    var n := |GlbFile(json, binary)|;
    assert n == 28 + p1 + p2;
    AlignedSum(p1, p2);
  }

  /** The header's length field, read back, equals the size of the file. */
  lemma GlbLengthField(json: seq<byte>, binary: seq<byte>)
    requires 28 + |json| + |binary| + 6 < 0x1_0000_0000
    ensures ReadUint32LE(GlbFile(json, binary)[8..12]) == |GlbFile(json, binary)|
  {
    var total := GlbTotalLength(Padded(json, 0x20), Padded(binary, 0));
    GlbFileLength(json, binary);
    var header := Uint32LE(GlbHeaderMagic) + Uint32LE(GlbVersion) + Uint32LE(total);
    var rest := Chunk(Padded(json, 0x20), GlbChunkTypeJson) + Chunk(Padded(binary, 0), GlbChunkTypeBin);
    assert GlbFile(json, binary) == header + rest;
    assert (header + rest)[8..12] == header[8..12];
    assert header[8..12] == Uint32LE(total);
    Uint32RoundTrip(total);
  }

  /** The bytes after the JSON text up to its aligned end are spaces. */
  lemma GlbJsonPaddedWithSpaces(json: seq<byte>, binary: seq<byte>)
    ensures forall i :: 20 + |json| <= i < 20 + PaddedBufferSize(|json|) ==> GlbFile(json, binary)[i] == 0x20
  {
    var jsonChunk := Padded(json, 0x20);
    PaddedFacts(json, 0x20);
    var file := GlbFile(json, binary);
    var header := Uint32LE(GlbHeaderMagic) + Uint32LE(GlbVersion) + Uint32LE(GlbTotalLength(jsonChunk, Padded(binary, 0)));
    var jc := Chunk(jsonChunk, GlbChunkTypeJson);
    var rest := jc + Chunk(Padded(binary, 0), GlbChunkTypeBin);
    assert file == header + rest;
    forall i | 20 + |json| <= i < 20 + PaddedBufferSize(|json|)
      ensures file[i] == 0x20
    {
      assert file[i] == rest[i - 12];
      assert rest[i - 12] == jc[i - 12];
      assert jc[i - 12] == jsonChunk[i - 20];
    }
  }
}
