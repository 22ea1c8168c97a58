/** Image header parsers (app/utils/images.py): the width and height of a PNG, JPEG or
    WebP image read from its first bytes, without decoding it.

    PNG follows section 11.2.2 of the PNG Specification, Second Edition (ISO/IEC 15948),
    JPEG the frame header of section B.2.2 of ITU-T T.81, WebP the RIFF container, VP8X
    and VP8L headers of sections 2 and 3 of RFC 9649 and the VP8 start code of section
    9.1 of RFC 6386. Bit operations on disjoint bit fields are written as sums and
    products: `a | (b << 8)` is `a + b * 256` when a < 256. */
module Images {
  import opened Wrappers
  import opened Text
  import opened Models

  /** A (width, height) answer. */
  datatype Size = Size(width: int, height: int)

  predicate Positive(r: Option<Size>) {
    r.Some? ==> r.value.width > 0 && r.value.height > 0
  }

  // ---------------------------------------------------------------- integer fields

  function Pow256(k: nat): (r: nat)
    ensures r >= 1
  {
    if k == 0 then 1 else 256 * Pow256(k - 1)
  }

  /** An unsigned big-endian integer (struct format ">H", ">I"). */
  function BE(s: Bytes): (r: nat)
    ensures r < Pow256(|s|)
  {
    if |s| == 0 then 0 else BE(s[..|s| - 1]) * 256 + s[|s| - 1]
  }

  /** An unsigned little-endian integer (struct format "<H", "<I"). */
  function LE(s: Bytes): (r: nat)
    ensures r < Pow256(|s|)
  {
    if |s| == 0 then 0 else s[0] + 256 * LE(s[1..])
  }

  function BEBytes(n: nat, k: nat): (r: Bytes)
    requires n < Pow256(k)
    ensures |r| == k
  {
    if k == 0 then [] else BEBytes(n / 256, k - 1) + [n % 256]
  }

  function LEBytes(n: nat, k: nat): (r: Bytes)
    requires n < Pow256(k)
    ensures |r| == k
  {
    if k == 0 then [] else [n % 256] + LEBytes(n / 256, k - 1)
  }

  lemma {:induction false} BERoundTrip(n: nat, k: nat)
    requires n < Pow256(k)
    ensures BE(BEBytes(n, k)) == n
  {
    if k > 0 {
      var s := BEBytes(n, k);
      assert s[..k - 1] == BEBytes(n / 256, k - 1);
      BERoundTrip(n / 256, k - 1);
    }
  }

  lemma {:induction false} LERoundTrip(n: nat, k: nat)
    requires n < Pow256(k)
    ensures LE(LEBytes(n, k)) == n
  {
    if k > 0 {
      var s := LEBytes(n, k);
      assert s[1..] == LEBytes(n / 256, k - 1);
      LERoundTrip(n / 256, k - 1);
    }
  }

  /** A slice of a slice is a slice. */
  lemma SubSlice(d: Bytes, a: nat, n: nat, i: nat, j: nat)
    requires a + n <= |d| && i <= j <= n
    ensures d[a + i..a + j] == d[a..a + n][i..j]
  {
    var x := d[a + i..a + j];
    var y := d[a..a + n][i..j];
    assert |x| == |y|;
    forall k | 0 <= k < |x| ensures x[k] == y[k] {
    }
  }

  function BE16(d: Bytes, i: nat): nat
    requires i + 2 <= |d|
  {
    BE(d[i..i + 2])
  }

  function BE32(d: Bytes, i: nat): nat
    requires i + 4 <= |d|
  {
    BE(d[i..i + 4])
  }

  function LE16(d: Bytes, i: nat): nat
    requires i + 2 <= |d|
  {
    LE(d[i..i + 2])
  }

  function LE24(d: Bytes, i: nat): nat
    requires i + 3 <= |d|
  {
    LE(d[i..i + 3])
  }

  function LE32(d: Bytes, i: nat): nat
    requires i + 4 <= |d|
  {
    LE(d[i..i + 4])
  }

  // ---------------------------------------------------------------- PNG

  const PngSignature: Bytes := [0x89, 0x50, 0x4E, 0x47, 0x0D, 0x0A, 0x1A, 0x0A]

  const IhdrTag: Bytes := [0x49, 0x48, 0x44, 0x52]

  /** _size_from_png: the IHDR width and height, when the first chunk is IHDR and both
      are positive. */
  function SizeFromPng(d: Bytes): (r: Option<Size>)
    ensures Positive(r)
    ensures r.Some? ==> |d| >= 24 && d[..8] == PngSignature && d[12..16] == IhdrTag
  {
    if |d| < 24 then None
    else if d[0..8] != PngSignature then None
    else if d[12..16] != IhdrTag then None
    else
      var w := BE32(d, 16);
      var h := BE32(d, 20);
      if w > 0 && h > 0 then Some(Size(w, h)) else None
  }

  /** The first 24 bytes of a PNG file: the signature, the IHDR chunk's length (13) and
      tag, and the width and height. */
  function PngHeader(w: nat, h: nat): (r: Bytes)
    requires w < Pow256(4) && h < Pow256(4)
    ensures |r| == 24
  {
    PngSignature + BEBytes(13, 4) + IhdrTag + BEBytes(w, 4) + BEBytes(h, 4)
  }

  /** A PNG header with positive dimensions reads back as those dimensions, whatever
      follows it. */
  lemma PngRoundTrip(w: nat, h: nat, rest: Bytes)
    requires 0 < w < Pow256(4) && 0 < h < Pow256(4)
    ensures SizeFromPng(PngHeader(w, h) + rest) == Some(Size(w, h))
  {
    var d := PngHeader(w, h) + rest;
    assert d[0..8] == PngSignature;
    assert d[12..16] == IhdrTag;
    assert d[16..20] == BEBytes(w, 4);
    assert d[20..24] == BEBytes(h, 4);
    BERoundTrip(w, 4);
    BERoundTrip(h, 4);
  }

  /** A zero dimension is refused. */
  lemma PngZeroWidth(h: nat, rest: Bytes)
    requires h < Pow256(4)
    ensures SizeFromPng(PngHeader(0, h) + rest).None?
  {
    var d := PngHeader(0, h) + rest;
    assert d[16..20] == BEBytes(0, 4);
    BERoundTrip(0, 4);
  }

  // ---------------------------------------------------------------- JPEG

  /** The start-of-frame markers: C0-CF except DHT (C4), JPG (C8) and DAC (CC). */
  predicate IsSof(m: byte) {
    m in {0xC0, 0xC1, 0xC2, 0xC3, 0xC5, 0xC6, 0xC7, 0xC9, 0xCA, 0xCB, 0xCD, 0xCE, 0xCF}
  }

  /** The first index at or after i that is not an 0xFF fill byte. */
  function SkipFill(d: Bytes, i: nat): (r: nat)
    requires i <= |d|
    ensures i <= r <= |d| && (r < |d| ==> d[r] != 0xFF)
    ensures forall k :: i <= k < r ==> d[k] == 0xFF
    decreases |d| - i
  {
    if i < |d| && d[i] == 0xFF then SkipFill(d, i + 1) else i
  }

  /** The marker walk of _size_from_jpeg from cursor i. */
  function JpegFrom(d: Bytes, i: nat): (r: Option<Size>)
    ensures Positive(r)
    decreases |d| - i
  {
    if i + 9 >= |d| then None
    else if d[i] != 0xFF then JpegFrom(d, i + 1)
    else
      var j := SkipFill(d, i);
      if j >= |d| then None
      else
        var marker := d[j];
        var k := j + 1;
        if marker == 0xD8 || marker == 0xD9 then JpegFrom(d, k)
        else if k + 2 > |d| then None
        else
          var segLen := BE16(d, k);
          if segLen < 2 then None
          else if IsSof(marker) && k + 5 < |d| then
            // the width slice is one byte short: struct.unpack raises, caught as None
            if k + 7 > |d| then None
            else
              var h := BE16(d, k + 3);
              var w := BE16(d, k + 5);
              if w > 0 && h > 0 then Some(Size(w, h)) else JpegFrom(d, k + segLen)
          else JpegFrom(d, k + segLen)
  }

  /** _size_from_jpeg: an SOI marker, then the marker walk from offset 2. */
  function JpegSize(d: Bytes): (r: Option<Size>)
    ensures Positive(r)
    ensures r.Some? ==> |d| >= 4 && d[0] == 0xFF && d[1] == 0xD8
  {
    if |d| < 4 then None
    else if !(d[0] == 0xFF && d[1] == 0xD8) then None
    else JpegFrom(d, 2)
  }

  /** _size_from_jpeg, with its two cursor loops. */
  method SizeFromJpeg(d: Bytes) returns (r: Option<Size>)
    ensures r == JpegSize(d)
  {
    if |d| < 4 {
      return None;
    }
    if !(d[0] == 0xFF && d[1] == 0xD8) {
      return None;
    }
    var i := 2;
    while i + 9 < |d|
      invariant 2 <= i
      invariant JpegFrom(d, i) == JpegSize(d)
      decreases |d| - i
    {
      if d[i] != 0xFF {
        i := i + 1;
        continue;
      }
      ghost var start := i;
      while i < |d| && d[i] == 0xFF
        invariant start <= i <= |d|
        invariant SkipFill(d, i) == SkipFill(d, start)
        decreases |d| - i
      {
        i := i + 1;
      }
      if i >= |d| {
        break;
      }
      var marker := d[i];
      i := i + 1;
      if marker == 0xD8 || marker == 0xD9 {
        continue;
      }
      if i + 2 > |d| {
        break;
      }
      var segLen := BE16(d, i);
      if segLen < 2 {
        return None;
      }
      if IsSof(marker) && i + 5 < |d| {
        if i + 7 > |d| {
          return None;
        }
        var h := BE16(d, i + 3);
        var w := BE16(d, i + 5);
        if w > 0 && h > 0 {
          return Some(Size(w, h));
        }
      }
      i := i + segLen;
    }
    return None;
  }

  /** A baseline frame header segment with one component: FF, the marker, the length
      11, precision 8, the height and width, the component count and one component. */
  function SofSegment(marker: byte, w: nat, h: nat): (r: Bytes)
    requires w < 65536 && h < 65536
    ensures |r| == 13
  {
    [0xFF, marker] + BEBytes(11, 2) + [8] + BEBytes(h, 2) + BEBytes(w, 2) + [1, 1, 0x11, 0]
  }

  /** A frame header with positive dimensions yields them. */
  lemma {:induction false} JpegFindsSof(d: Bytes, i: nat, marker: byte, w: nat, h: nat)
    requires IsSof(marker) && 0 < w < 65536 && 0 < h < 65536
    requires i + 13 <= |d| && d[i..i + 13] == SofSegment(marker, w, h)
    ensures JpegFrom(d, i) == Some(Size(w, h))
  {
    var seg := SofSegment(marker, w, h);
    assert d[i] == seg[0] == 0xFF && d[i + 1] == seg[1] == marker;
    assert SkipFill(d, i + 1) == i + 1;
    assert SkipFill(d, i) == i + 1;
    assert seg[2..4] == BEBytes(11, 2) && seg[5..7] == BEBytes(h, 2) && seg[7..9] == BEBytes(w, 2);
    var sl := d[i..i + 13];
    assert forall k :: 0 <= k < 13 ==> sl[k] == d[i + k];
    assert d[i + 2..i + 4] == seg[2..4];
    assert d[i + 5..i + 7] == seg[5..7];
    assert d[i + 7..i + 9] == seg[7..9];
    BERoundTrip(11, 2);
    BERoundTrip(h, 2);
    BERoundTrip(w, 2);
  }

  /** A segment whose marker is not a frame header is jumped over by its length; in
      particular DHT (C4), JPG (C8) and DAC (CC) never give dimensions. */
  lemma JpegSkipsSegment(d: Bytes, i: nat)
    requires i + 9 < |d| && d[i] == 0xFF && d[i + 1] != 0xFF
    requires d[i + 1] != 0xD8 && d[i + 1] != 0xD9 && !IsSof(d[i + 1])
    requires BE16(d, i + 2) >= 2
    ensures JpegFrom(d, i) == JpegFrom(d, i + 2 + BE16(d, i + 2))
  {
    assert SkipFill(d, i + 1) == i + 1;
    assert SkipFill(d, i) == i + 1;
  }

  /** A segment length below 2 ends the walk with no answer. */
  lemma JpegBadLength(d: Bytes, i: nat)
    requires i + 9 < |d| && d[i] == 0xFF && d[i + 1] != 0xFF && d[i + 1] != 0xD8 && d[i + 1] != 0xD9
    requires BE16(d, i + 2) < 2
    ensures JpegFrom(d, i).None?
  {
    assert SkipFill(d, i + 1) == i + 1;
    assert SkipFill(d, i) == i + 1;
  }

  /** An SOI followed by a frame header reads back the frame's dimensions. */
  lemma JpegRoundTrip(marker: byte, w: nat, h: nat, rest: Bytes)
    requires IsSof(marker) && 0 < w < 65536 && 0 < h < 65536
    ensures JpegSize([0xFF, 0xD8] + SofSegment(marker, w, h) + rest) == Some(Size(w, h))
  {
    var d := [0xFF, 0xD8] + SofSegment(marker, w, h) + rest;
    assert d[2..15] == SofSegment(marker, w, h);
    JpegFindsSof(d, 2, marker, w, h);
  }

  // ---------------------------------------------------------------- WebP

  const RiffTag: Bytes := [0x52, 0x49, 0x46, 0x46]
  const WebpTag: Bytes := [0x57, 0x45, 0x42, 0x50]
  const Vp8xTag: Bytes := [0x56, 0x50, 0x38, 0x58]
  const Vp8Tag: Bytes := [0x56, 0x50, 0x38, 0x20]
  const Vp8lTag: Bytes := [0x56, 0x50, 0x38, 0x4C]
  /** The VP8 key-frame start code. */
  const StartCode: Bytes := [0x9D, 0x01, 0x2A]

  predicate StartCodeAt(d: Bytes, k: nat)
    requires k + 3 <= |d|
  {
    d[k..k + 3] == StartCode
  }

  /** The first start code at or after `scan` that ends by `searchEnd`. */
  function FindStartCode(d: Bytes, scan: nat, searchEnd: nat): (r: Option<nat>)
    requires searchEnd <= |d|
    ensures r.Some? ==> scan <= r.value && r.value + 3 <= searchEnd && StartCodeAt(d, r.value)
    ensures r.Some? ==> forall k :: scan <= k < r.value ==> !StartCodeAt(d, k)
    ensures r.None? ==> forall k :: scan <= k && k + 3 <= searchEnd ==> !StartCodeAt(d, k)
    decreases searchEnd - scan
  {
    if scan + 3 > searchEnd then None
    else if StartCodeAt(d, scan) then Some(scan)
    else FindStartCode(d, scan + 1, searchEnd)
  }

  /** VP8X: 24-bit width-1 and height-1 at payload offsets 4 and 7. */
  function Vp8xSize(d: Bytes, ps: nat): (r: Size)
    requires ps + 10 <= |d|
    ensures r.width > 0 && r.height > 0
  {
    Size(LE24(d, ps + 4) + 1, LE24(d, ps + 7) + 1)
  }

  /** VP8L: after the 0x2F signature, 14 bits of width-1 and 14 bits of height-1. */
  function Vp8lSize(d: Bytes, ps: nat): (r: Size)
    requires ps + 5 <= |d|
    ensures r.width > 0 && r.height > 0
  {
    var b1: int := d[ps + 1];
    var b2: int := d[ps + 2];
    var b3: int := d[ps + 3];
    var b4: int := d[ps + 4];
    Size(b1 + (b2 % 64) * 256 + 1, b2 / 64 + b3 * 4 + (b4 % 16) * 1024 + 1)
  }

  /** VP8: the 14-bit width and height after a start code in the first 30 payload
      bytes, when both are positive. */
  function Vp8Size(d: Bytes, ps: nat, pe: nat): (r: Option<Size>)
    requires ps <= pe <= |d|
    ensures Positive(r)
  {
    var searchEnd := if pe < ps + 30 then pe else ps + 30;
    var sig := FindStartCode(d, ps, searchEnd);
    if sig.Some? && sig.value + 7 <= pe then
      var w := LE16(d, sig.value + 3) % 0x4000;
      var h := LE16(d, sig.value + 5) % 0x4000;
      if w > 0 && h > 0 then Some(Size(w, h)) else None
    else None
  }

  /** What one chunk contributes: VP8X, VP8 and VP8L chunks large enough to hold their
      header, and only when they decode. */
  function ChunkSize(d: Bytes, offset: nat, size: nat): (r: Option<Size>)
    requires offset + 8 + size <= |d|
    ensures Positive(r)
  {
    var tag := d[offset..offset + 4];
    var ps := offset + 8;
    if tag == Vp8xTag && size >= 10 then Some(Vp8xSize(d, ps))
    else if tag == Vp8Tag && size >= 10 && Vp8Size(d, ps, ps + size).Some? then Vp8Size(d, ps, ps + size)
    else if tag == Vp8lTag && size >= 5 && d[ps] == 0x2F then Some(Vp8lSize(d, ps))
    else None
  }

  /** The chunk walk of _size_from_webp from `offset`. */
  function WebpFrom(d: Bytes, offset: nat): (r: Option<Size>)
    ensures Positive(r)
    decreases |d| - offset
  {
    if offset + 8 > |d| then None
    else
      var size := LE32(d, offset + 4);
      var pe := offset + 8 + size;
      if pe > |d| then None
      else match ChunkSize(d, offset, size)
        case Some(wh) => Some(wh)
        case None => WebpFrom(d, pe + size % 2)
  }

  /** _size_from_webp: a RIFF file of form WEBP, then the chunks from offset 12. */
  function WebpSize(d: Bytes): (r: Option<Size>)
    ensures Positive(r)
    ensures r.Some? ==> |d| >= 16 && d[..4] == RiffTag && d[8..12] == WebpTag
  {
    if |d| < 16 then None
    else if d[0..4] != RiffTag || d[8..12] != WebpTag then None
    else WebpFrom(d, 12)
  }

  /** The start-code search of the VP8 branch; -1 when there is none. */
  method ScanStartCode(d: Bytes, ps: nat, searchEnd: nat) returns (sigPos: int)
    requires searchEnd <= |d|
    ensures FindStartCode(d, ps, searchEnd).Some? ==> sigPos == FindStartCode(d, ps, searchEnd).value
    ensures FindStartCode(d, ps, searchEnd).None? ==> sigPos == -1
  {
    sigPos := -1;
    var scan := ps;
    while scan + 3 <= searchEnd
      invariant ps <= scan
      invariant FindStartCode(d, scan, searchEnd) == FindStartCode(d, ps, searchEnd)
      decreases searchEnd - scan
    {
      if d[scan..scan + 3] == StartCode {
        sigPos := scan;
        break;
      }
      scan := scan + 1;
    }
  }

  /** One chunk of the walk: the three header decoders in the order of the source. */
  method DecodeChunk(d: Bytes, offset: nat, size: nat) returns (r: Option<Size>)
    requires offset + 8 + size <= |d|
    ensures r == ChunkSize(d, offset, size)
  {
    var tag := d[offset..offset + 4];
    var ps := offset + 8;
    var pe := ps + size;
    if tag == Vp8xTag && size >= 10 {
      var w := LE24(d, ps + 4) + 1;
      var h := LE24(d, ps + 7) + 1;
      return Some(Size(w, h));
    }
    if tag == Vp8Tag && size >= 10 {
      var searchEnd := if pe < ps + 30 then pe else ps + 30;
      var sigPos := ScanStartCode(d, ps, searchEnd);
      if sigPos != -1 && sigPos + 7 <= pe {
        var w := LE16(d, sigPos + 3) % 0x4000;
        var h := LE16(d, sigPos + 5) % 0x4000;
        if w > 0 && h > 0 {
          return Some(Size(w, h));
        }
      }
    }
    if tag == Vp8lTag && size >= 5 && d[ps] == 0x2F {
      return Some(Vp8lSize(d, ps));
    }
    return None;
  }

  /** _size_from_webp, with its chunk loop. */
  method SizeFromWebp(d: Bytes) returns (r: Option<Size>)
    ensures r == WebpSize(d)
  {
    if |d| < 16 {
      return None;
    }
    if d[0..4] != RiffTag || d[8..12] != WebpTag {
      return None;
    }
    var offset := 12;
    while offset + 8 <= |d|
      invariant WebpFrom(d, offset) == WebpSize(d)
      decreases |d| - offset
    {
      var size := LE32(d, offset + 4);
      var pe := offset + 8 + size;
      if pe > |d| {
        break;
      }
      r := DecodeChunk(d, offset, size);
      if r.Some? {
        return r;
      }
      offset := pe + size % 2;
    }
    return None;
  }

  /** A chunk: its tag, its little-endian size, its payload and the padding byte of an
      odd size. */
  function Chunk(tag: Bytes, payload: Bytes): (r: Bytes)
    requires |tag| == 4 && |payload| < Pow256(4)
  {
    tag + LEBytes(|payload|, 4) + payload + (if |payload| % 2 == 1 then [0] else [])
  }

  /** A WebP file holding the given chunk bytes. */
  function WebpFile(chunks: Bytes): (r: Bytes)
    requires 4 + |chunks| < Pow256(4)
  {
    RiffTag + LEBytes(4 + |chunks|, 4) + WebpTag + chunks
  }

  /** The walk reads a chunk's size field back as its payload length. */
  lemma ChunkFields(d: Bytes, offset: nat, tag: Bytes, payload: Bytes)
    requires |tag| == 4 && |payload| < Pow256(4)
    requires offset + |Chunk(tag, payload)| <= |d| && d[offset..offset + |Chunk(tag, payload)|] == Chunk(tag, payload)
    ensures offset + 8 + |payload| <= |d|
    ensures d[offset..offset + 4] == tag && LE32(d, offset + 4) == |payload|
    ensures d[offset + 8..offset + 8 + |payload|] == payload
  {
    var c := Chunk(tag, payload);
    var sl := d[offset..offset + |c|];
    assert c[..4] == tag && c[4..8] == LEBytes(|payload|, 4) && c[8..8 + |payload|] == payload;
    SubSlice(d, offset, |c|, 0, 4);
    SubSlice(d, offset, |c|, 4, 8);
    SubSlice(d, offset, |c|, 8, 8 + |payload|);
    LERoundTrip(|payload|, 4);
  }

  /** A chunk the walk does not decode is stepped over, padding included. */
  lemma WebpSkipsChunk(d: Bytes, offset: nat, tag: Bytes, payload: Bytes)
    requires |tag| == 4 && |payload| < Pow256(4) && tag != Vp8xTag && tag != Vp8Tag && tag != Vp8lTag
    requires offset + |Chunk(tag, payload)| <= |d| && d[offset..offset + |Chunk(tag, payload)|] == Chunk(tag, payload)
    ensures WebpFrom(d, offset) == WebpFrom(d, offset + |Chunk(tag, payload)|)
  {
    ChunkFields(d, offset, tag, payload);
  }

  /** The file header puts the first chunk at offset 12. */
  lemma WebpFileStart(chunks: Bytes)
    requires 4 + |chunks| < Pow256(4) && |chunks| >= 4
    ensures var d := WebpFile(chunks);
      WebpSize(d) == WebpFrom(d, 12) && d[12..] == chunks
  {
    var d := WebpFile(chunks);
    assert d[0..4] == RiffTag && d[8..12] == WebpTag;
  }

  function Vp8xPayload(w: nat, h: nat): (r: Bytes)
    requires 0 < w <= Pow256(3) && 0 < h <= Pow256(3)
    ensures |r| == 10
  {
    [0, 0, 0, 0] + LEBytes(w - 1, 3) + LEBytes(h - 1, 3)
  }

  /** A VP8X chunk reads back as its canvas size. */
  lemma Vp8xRoundTrip(d: Bytes, offset: nat, w: nat, h: nat)
    requires 0 < w <= Pow256(3) && 0 < h <= Pow256(3)
    requires offset + 18 <= |d| && d[offset..offset + 18] == Chunk(Vp8xTag, Vp8xPayload(w, h))
    ensures WebpFrom(d, offset) == Some(Size(w, h))
  {
    var p := Vp8xPayload(w, h);
    ChunkFields(d, offset, Vp8xTag, p);
    var ps := offset + 8;
    assert p[4..7] == LEBytes(w - 1, 3) && p[7..10] == LEBytes(h - 1, 3);
    SubSlice(d, ps, 10, 4, 7);
    SubSlice(d, ps, 10, 7, 10);
    LERoundTrip(w - 1, 3);
    LERoundTrip(h - 1, 3);
  }

  /** The four bytes after the VP8L signature for a width and height of at most 2^14. */
  function Vp8lBits(w: nat, h: nat): (r: Bytes)
    requires 0 < w <= 0x4000 && 0 < h <= 0x4000
    ensures |r| == 4
  {
    var x := w - 1;
    var y := h - 1;
    [x % 256, x / 256 + (y % 4) * 64, (y / 4) % 256, y / 1024]
  }

  /** A VP8L chunk reads back as its image size. */
  lemma Vp8lRoundTrip(d: Bytes, offset: nat, w: nat, h: nat)
    requires 0 < w <= 0x4000 && 0 < h <= 0x4000
    requires offset + 14 <= |d| && d[offset..offset + 14] == Chunk(Vp8lTag, [0x2F] + Vp8lBits(w, h))
    ensures WebpFrom(d, offset) == Some(Size(w, h))
  {
    var p := [0x2F] + Vp8lBits(w, h);
    ChunkFields(d, offset, Vp8lTag, p);
    var ps := offset + 8;
    assert d[ps] == d[ps..ps + 5][0] == 0x2F;
    Vp8lDecodes(d, ps, w, h);
  }

  /** The VP8L bit packing reads back. */
  lemma Vp8lDecodes(d: Bytes, ps: nat, w: nat, h: nat)
    requires 0 < w <= 0x4000 && 0 < h <= 0x4000
    requires ps + 5 <= |d| && d[ps..ps + 5] == [0x2F] + Vp8lBits(w, h)
    ensures Vp8lSize(d, ps) == Size(w, h)
  {
    var sl := d[ps..ps + 5];
    var x := w - 1;
    var y := h - 1;
    assert d[ps + 1] == sl[1] == x % 256;
    assert d[ps + 2] == sl[2] == x / 256 + (y % 4) * 64;
    assert d[ps + 3] == sl[3] == (y / 4) % 256;
    assert d[ps + 4] == sl[4] == y / 1024;
    var b2: int := x / 256 + (y % 4) * 64;
    assert b2 % 64 == x / 256 && b2 / 64 == y % 4;
    assert (y / 4) / 256 == y / 1024 && y / 1024 < 16;
    assert ((y / 4) % 256) * 4 + (y / 1024) * 1024 == (y / 4) * 4;
  }

  /** A key frame's first ten bytes: the frame tag, the start code and the two 14-bit
      dimensions (upscaling bits zero). */
  function Vp8Payload(tag: Bytes, w: nat, h: nat): (r: Bytes)
    requires |tag| == 3 && 0 < w < 0x4000 && 0 < h < 0x4000
    ensures |r| == 10
  {
    tag + StartCode + LEBytes(w, 2) + LEBytes(h, 2)
  }

  /** The start code is found right after a frame tag in which it does not begin. */
  lemma Vp8FindsStartCode(d: Bytes, ps: nat, p: Bytes, searchEnd: nat)
    requires |p| == 10 && ps + 10 <= searchEnd <= |d| && d[ps..ps + 10] == p && p[3..6] == StartCode
    requires p[0..3] != StartCode && p[1..4] != StartCode && p[2..5] != StartCode
    ensures FindStartCode(d, ps, searchEnd) == Some(ps + 3)
  {
    var sl := d[ps..ps + 10];
    SubSlice(d, ps, 10, 0, 3);
    SubSlice(d, ps, 10, 1, 4);
    SubSlice(d, ps, 10, 2, 5);
    SubSlice(d, ps, 10, 3, 6);
    assert !StartCodeAt(d, ps) && !StartCodeAt(d, ps + 1) && !StartCodeAt(d, ps + 2) && StartCodeAt(d, ps + 3);
    assert FindStartCode(d, ps + 3, searchEnd) == Some(ps + 3);
    assert FindStartCode(d, ps + 2, searchEnd) == Some(ps + 3);
    assert FindStartCode(d, ps + 1, searchEnd) == Some(ps + 3);
  }

  /** A VP8 chunk reads back as its frame size. */
  lemma Vp8RoundTrip(d: Bytes, offset: nat, tag: Bytes, w: nat, h: nat)
    requires |tag| == 3 && tag != StartCode && 0 < w < 0x4000 && 0 < h < 0x4000
    requires offset + 18 <= |d| && d[offset..offset + 18] == Chunk(Vp8Tag, Vp8Payload(tag, w, h))
    ensures WebpFrom(d, offset) == Some(Size(w, h))
  {
    var p := Vp8Payload(tag, w, h);
    ChunkFields(d, offset, Vp8Tag, p);
    Vp8Decodes(d, offset + 8, tag, w, h);
  }

  /** The VP8 decoder reads a key frame's payload back as its frame size. */
  lemma Vp8Decodes(d: Bytes, ps: nat, tag: Bytes, w: nat, h: nat)
    requires |tag| == 3 && tag != StartCode && 0 < w < 0x4000 && 0 < h < 0x4000
    requires ps + 10 <= |d| && d[ps..ps + 10] == Vp8Payload(tag, w, h)
    ensures Vp8Size(d, ps, ps + 10) == Some(Size(w, h))
  {
    var p := Vp8Payload(tag, w, h);
    assert p[3..6] == StartCode && p[6..8] == LEBytes(w, 2) && p[8..10] == LEBytes(h, 2);
    assert p[0..3] == tag;
    assert p[1..4][2] == p[3] == 0x9D;
    assert p[2..5][1] == p[3] == 0x9D;
    Vp8FindsStartCode(d, ps, p, ps + 10);
    SubSlice(d, ps, 10, 6, 8);
    SubSlice(d, ps, 10, 8, 10);
    LERoundTrip(w, 2);
    LERoundTrip(h, 2);
  }

  /** A WebP file whose first chunk is VP8X reads back as the canvas size. */
  lemma WebpVp8xFile(w: nat, h: nat, more: Bytes)
    requires 0 < w <= Pow256(3) && 0 < h <= Pow256(3) && 22 + |more| < Pow256(4)
    ensures WebpSize(WebpFile(Chunk(Vp8xTag, Vp8xPayload(w, h)) + more)) == Some(Size(w, h))
  {
    var c := Chunk(Vp8xTag, Vp8xPayload(w, h));
    var d := WebpFile(c + more);
    WebpFileStart(c + more);
    assert d[12..30] == c;
    Vp8xRoundTrip(d, 12, w, h);
  }

  // ---------------------------------------------------------------- get_image_size_from_bytes

  datatype Format = Png | Jpeg | WebP

  /** The index of the last occurrence of c in s. */
  function LastIndex(s: string, c: char): (r: Option<nat>)
    ensures r.Some? ==> r.value < |s| && s[r.value] == c && forall k :: r.value < k < |s| ==> s[k] != c
    ensures r.None? ==> forall k :: 0 <= k < |s| ==> s[k] != c
  {
    if |s| == 0 then None
    else if s[|s| - 1] == c then Some(|s| - 1)
    else LastIndex(s[..|s| - 1], c)
  }

  /** The lower-cased text after the file name's last dot, "" without a dot. */
  function Extension(filename: Option<string>): (r: string)
    ensures '.' !in r
    ensures filename.Some? && '.' in Lower(filename.value) ==>
      exists k :: 0 <= k < |filename.value| && Lower(filename.value)[k] == '.' && r == Lower(filename.value)[k + 1..]
    ensures filename.None? || '.' !in Lower(filename.value) ==> r == ""
  {
    if filename.None? then ""
    else
      var fn := Lower(filename.value);
      match LastIndex(fn, '.')
      case None => ""
      case Some(k) => fn[k + 1..]
  }

  /** The guided order: the parser the name or type points to first. */
  function TryOrder(ext: string, mime: string): (r: seq<Format>)
    ensures |r| == 3 && Png in r && Jpeg in r && WebP in r
  {
    if Contains(mime, "png") || ext == "png" then [Png, Jpeg, WebP]
    else if Contains(mime, "jpeg") || Contains(mime, "jpg") || ext == "jpg" || ext == "jpeg" then [Jpeg, Png, WebP]
    else if Contains(mime, "webp") || ext == "webp" then [WebP, Png, Jpeg]
    else [Png, Jpeg, WebP]
  }

  /** A type that names no format leaves the choice to the extension; png is tried first
      whenever the type mentions it, and also when nothing points elsewhere. */
  lemma TryOrderFirst(ext: string, mime: string)
    ensures Contains(mime, "png") ==> TryOrder(ext, mime)[0] == Png
    ensures !Contains(mime, "png") && !Contains(mime, "jpeg") && !Contains(mime, "jpg") && !Contains(mime, "webp") ==>
      TryOrder(ext, mime)[0] == (if ext == "jpg" || ext == "jpeg" then Jpeg else if ext == "webp" then WebP else Png)
  {
  }

  function SizeAs(f: Format, d: Bytes): (r: Option<Size>)
    ensures Positive(r)
  {
    match f
    case Png => SizeFromPng(d)
    case Jpeg => JpegSize(d)
    case WebP => WebpSize(d)
  }

  /** The first answer in the given order. */
  function FirstSize(order: seq<Format>, d: Bytes): (r: Option<Size>)
    ensures Positive(r)
    ensures r.Some? <==> exists i :: 0 <= i < |order| && SizeAs(order[i], d).Some?
    ensures r.Some? ==> exists i :: (0 <= i < |order| && r == SizeAs(order[i], d)
      && forall j :: 0 <= j < i ==> SizeAs(order[j], d).None?)
  {
    if |order| == 0 then None
    else if SizeAs(order[0], d).Some? then SizeAs(order[0], d)
    else
      var rest := FirstSize(order[1..], d);
      assert forall i :: 1 <= i < |order| ==> order[i] == order[1..][i - 1];
      rest
  }

  function MimeLower(mime: Option<string>): string {
    if mime.Some? then Lower(mime.value) else ""
  }

  /** get_image_size_from_bytes. */
  function ImageSize(d: Bytes, filename: Option<string>, mime: Option<string>): (r: Option<Size>)
    ensures Positive(r)
    ensures |d| == 0 ==> r.None?
  {
    if |d| == 0 then None else FirstSize(TryOrder(Extension(filename), MimeLower(mime)), d)
  }

  /** Hints only reorder the parsers: non-empty bytes that some parser recognises get an
      answer whatever the name and type say, and the hinted parser's answer wins. */
  lemma ImageSizeMeaning(d: Bytes, filename: Option<string>, mime: Option<string>, f: Format)
    requires |d| > 0 && SizeAs(f, d).Some?
    ensures ImageSize(d, filename, mime).Some?
    ensures var order := TryOrder(Extension(filename), MimeLower(mime));
      SizeAs(order[0], d).Some? ==> ImageSize(d, filename, mime) == SizeAs(order[0], d)
  {
    var order := TryOrder(Extension(filename), MimeLower(mime));
    var i :| 0 <= i < |order| && order[i] == f;
  }

  /** One parser of the guided order. */
  method SizeFromFormat(f: Format, d: Bytes) returns (r: Option<Size>)
    ensures r == SizeAs(f, d)
  {
    match f
    case Png => r := SizeFromPng(d);
    case Jpeg => r := SizeFromJpeg(d);
    case WebP => r := SizeFromWebp(d);
  }

  /** get_image_size_from_bytes, with its loop over the guided order. */
  method GetImageSizeFromBytes(d: Bytes, filename: Option<string>, mime: Option<string>) returns (r: Option<Size>)
    ensures r == ImageSize(d, filename, mime)
  {
    if |d| == 0 {
      return None;
    }
    var order := TryOrder(Extension(filename), MimeLower(mime));
    var i := 0;
    while i < |order|
      invariant 0 <= i <= |order|
      invariant FirstSize(order[i..], d) == FirstSize(order, d)
    {
      assert order[i..][1..] == order[i + 1..];
      var wh := SizeFromFormat(order[i], d);
      if wh.Some? {
        return wh;
      }
      i := i + 1;
    }
    return None;
  }
}
