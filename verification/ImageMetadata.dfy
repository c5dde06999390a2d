/**
 Which images need no visual conversion: the container walkers of pkg/tumblr/media.go for PNG and WebP,
 and the EXIF orientation. A walker refuses whatever it cannot follow to the end.
 */
module ImageMetadata {
  import opened Bytes

  // A chunk of either format: what follows the payload is a checksum in PNG, and padding in WebP.
  datatype Chunk = Chunk(kind: seq<Byte>, payload: seq<Byte>, trailer: seq<Byte>)

  // ---- EXIF ----

  datatype Orientation = Invalid | Absent | Present(value: nat)

  const EXIF_PREFIX: seq<Byte> := [69, 120, 105, 102, 0, 0]
  const ORIENTATION_TAG := 0x0112
  const SHORT_TYPE := 3

  function Number(little: bool, s: seq<Byte>): nat {
    if little then LittleEndian(s) else BigEndian(s)
  }

  function TiffOf(data: seq<Byte>): seq<Byte> {
    if EXIF_PREFIX <= data then data[6..] else data
  }

  predicate IsLittle(tiff: seq<Byte>) {
    |tiff| >= 2 && tiff[..2] == [73, 73]
  }

  function DirectoryOffset(tiff: seq<Byte>): nat
    requires |tiff| >= 8
  {
    Number(IsLittle(tiff), tiff[4..8])
  }

  // A header in one of the byte orders, and a directory that lies within the bytes.
  predicate IsTiff(tiff: seq<Byte>) {
    && |tiff| >= 8
    && tiff[..2] in {[73, 73], [77, 77]}
    && Number(IsLittle(tiff), tiff[2..4]) == 42
    && 8 <= DirectoryOffset(tiff) <= |tiff| - 2
    && EntryCount(tiff) <= (|tiff| - DirectoryOffset(tiff) - 2) / 12
  }

  function EntryCount(tiff: seq<Byte>): nat
    requires |tiff| >= 8 && DirectoryOffset(tiff) <= |tiff| - 2
  {
    Number(IsLittle(tiff), tiff[DirectoryOffset(tiff)..DirectoryOffset(tiff) + 2])
  }

  function Entry(tiff: seq<Byte>, index: nat): (entry: seq<Byte>)
    requires IsTiff(tiff) && index < EntryCount(tiff)
    ensures |entry| == 12
  {
    var start := DirectoryOffset(tiff) + 2 + index * 12;
    assert index * 12 + 12 <= EntryCount(tiff) * 12;
    tiff[start..start + 12]
  }

  predicate IsOrientationEntry(tiff: seq<Byte>, index: nat)
    requires IsTiff(tiff) && index < EntryCount(tiff)
  {
    Number(IsLittle(tiff), Entry(tiff, index)[..2]) == ORIENTATION_TAG
  }

  // What an orientation entry says: one short number from one to eight.
  function EntryOrientation(tiff: seq<Byte>, index: nat): Orientation
    requires IsTiff(tiff) && index < EntryCount(tiff)
  {
    var entry, little := Entry(tiff, index), IsLittle(tiff);
    var value := Number(little, entry[8..10]);
    if Number(little, entry[2..4]) == SHORT_TYPE && Number(little, entry[4..8]) == 1 && 1 <= value <= 8
      then Present(value) else Invalid
  }

  // The first orientation entry decides.
  predicate IsOrientation(data: seq<Byte>, r: Orientation) {
    var tiff := TiffOf(data);
    if !IsTiff(tiff) then r == Invalid
    else if forall i | 0 <= i < EntryCount(tiff) :: !IsOrientationEntry(tiff, i) then r == Absent
    else exists i | 0 <= i < EntryCount(tiff) ::
      IsOrientationEntry(tiff, i) && r == EntryOrientation(tiff, i) && forall j | 0 <= j < i ::
        !IsOrientationEntry(tiff, j)
  }

  lemma OneOrientation(data: seq<Byte>, a: Orientation, b: Orientation)
    requires IsOrientation(data, a) && IsOrientation(data, b)
    ensures a == b
  {
    var tiff := TiffOf(data);
    if IsTiff(tiff) && exists i | 0 <= i < EntryCount(tiff) :: IsOrientationEntry(tiff, i) {
      var i :| 0 <= i < EntryCount(tiff) && IsOrientationEntry(tiff, i) && a == EntryOrientation(tiff, i)
        && forall j | 0 <= j < i :: !IsOrientationEntry(tiff, j);
      var j :| 0 <= j < EntryCount(tiff) && IsOrientationEntry(tiff, j) && b == EntryOrientation(tiff, j)
        && forall k | 0 <= k < j :: !IsOrientationEntry(tiff, k);
      assert i == j;
    }
  }

  method ReadEXIFOrientation(exif: seq<Byte>) returns (r: Orientation)
    ensures IsOrientation(exif, r)
  {
    hide BigEndian, LittleEndian;
    var data := exif;
    if EXIF_PREFIX <= data {
      data := data[6..];
    }
    if |data| < 8 { return Invalid; }
    var little: bool;
    if data[..2] == [73, 73] {
      little := true;
    } else if data[..2] == [77, 77] {
      little := false;
    } else {
      return Invalid;
    }
    if Number(little, data[2..4]) != 42 { return Invalid; }
    var ifdOffset := Number(little, data[4..8]);
    if ifdOffset < 8 || ifdOffset > |data| - 2 { return Invalid; }
    var entryCount := Number(little, data[ifdOffset..ifdOffset + 2]);
    if entryCount > (|data| - ifdOffset - 2) / 12 { return Invalid; }
    for index := 0 to entryCount
      invariant IsTiff(data) && data == TiffOf(exif) && little == IsLittle(data) && entryCount == EntryCount(data)
      invariant forall i | 0 <= i < index :: !IsOrientationEntry(data, i)
    {
      var entry := Entry(data, index);
      if Number(little, entry[..2]) != ORIENTATION_TAG { continue; }
      assert IsOrientationEntry(data, index);
      if Number(little, entry[2..4]) != SHORT_TYPE || Number(little, entry[4..8]) != 1 { return Invalid; }
      var orientation := Number(little, entry[8..10]);
      if orientation < 1 || orientation > 8 { return Invalid; }
      assert IsOrientationEntry(data, index) && EntryOrientation(data, index) == Present(orientation);
      return Present(orientation);
    }
    return Absent;
  }

  predicate IsUpright(exif: seq<Byte>) {
    IsOrientation(exif, Absent) || IsOrientation(exif, Present(1))
  }

  // ---- PNG ----

  const PNG_SIGNATURE: seq<Byte> := [137, 80, 78, 71, 13, 10, 26, 10]
  const IEND: seq<Byte> := [73, 69, 78, 68]
  const PNG_EXIF: seq<Byte> := [101, 88, 73, 102]
  // iCCP, cICP, cHRM, gAMA, sRGB, mDCv, cLLi
  const PNG_COLOUR: set<seq<Byte>> := {
    [105, 67, 67, 80], [99, 73, 67, 80], [99, 72, 82, 77], [103, 65, 77, 65], [115, 82, 71, 66], [109, 68, 67, 118],
      [99, 76, 76, 105]}

  predicate IsPlainPngChunk(c: Chunk) {
    && |c.kind| == 4 && |c.payload| < LIMIT_32 && |c.trailer| == 4
    && c.kind !in PNG_COLOUR
    && (c.kind == PNG_EXIF ==> IsUpright(c.payload))
  }

  function PngChunkBytes(c: Chunk): seq<Byte> {
    BigEndianBytes(|c.payload|, 4) + c.kind + c.payload + c.trailer
  }

  function PngBytes(chunks: seq<Chunk>): seq<Byte> {
    if chunks == [] then [] else PngChunkBytes(chunks[0]) + PngBytes(chunks[1..])
  }

  // A complete list ends with its first end chunk, which is empty.
  predicate IsPlainPng(chunks: seq<Chunk>) {
    && chunks != []
    && (forall c <- chunks :: IsPlainPngChunk(c))
    && chunks[|chunks| - 1].kind == IEND && chunks[|chunks| - 1].payload == []
    && forall i | 0 <= i < |chunks| - 1 :: chunks[i].kind != IEND
  }

  // The first chunk of the bytes, if all of it is there.
  predicate HasPngChunk(s: seq<Byte>) {
    |s| >= 12 && BigEndian(s[..4]) <= |s| - 12
  }

  function PngChunk(s: seq<Byte>): Chunk
    requires HasPngChunk(s)
  {
    var n := BigEndian(s[..4]);
    Chunk(s[4..8], s[8..8 + n], s[8 + n..12 + n])
  }

  function AfterPngChunk(s: seq<Byte>): seq<Byte>
    requires HasPngChunk(s)
  {
    s[12 + BigEndian(s[..4])..]
  }

  predicate PngRefuses(s: seq<Byte>)
    decreases |s|
  {
    if !HasPngChunk(s) || !IsPlainPngChunk(PngChunk(s)) then true
    else if PngChunk(s).kind == IEND then PngChunk(s).payload != []
    else PngRefuses(AfterPngChunk(s))
  }

  // The walk from an offset: it takes the chunk at the offset and goes on after it.
  lemma PngChunkAt(data: seq<Byte>, offset: nat)
    requires offset + 12 <= |data|
    ensures var s, n := data[offset..], BigEndian(data[offset..offset + 4]);
            && n < LIMIT_32
            && (HasPngChunk(s) <==> n <= |data| - offset - 12)
            && (HasPngChunk(s) ==>
                  && PngChunk(s).kind == data[offset + 4..offset + 8]
                  && PngChunk(s).payload == data[offset + 8..offset + 8 + n] && |PngChunk(s).trailer| == 4
                  && AfterPngChunk(s) == data[offset + n + 12..])
  {
    hide BigEndian;
    var s, end := data[offset..], |data|;
    PngSizeAt(data, offset);
    assert s == data[offset..end];
    var n := BigEndian(s[..4]);
    if n <= |s| - 12 {
      SliceOfSlice(data, offset, end, 4, 8);
      SliceOfSlice(data, offset, end, 8, 8 + n);
      SliceOfSlice(data, offset, end, 12 + n, |s|);
    }
  }

  lemma PngSizeAt(data: seq<Byte>, offset: nat)
    requires offset + 12 <= |data|
    ensures data[offset..][..4] == data[offset..offset + 4] && BigEndian(data[offset..offset + 4]) < LIMIT_32
  {
    hide BigEndian;
    assert data[offset..][..4] == data[offset..offset + 4];
    FourBytes(0, data[offset..offset + 4]);
  }

  lemma PngRefusesAt(data: seq<Byte>, offset: nat)
    requires offset + 12 <= |data|
    ensures var n := BigEndian(data[offset..offset + 4]);
            if n > |data| - offset - 12 then PngRefuses(data[offset..])
            else
              var kind, payload := data[offset + 4..offset + 8], data[offset + 8..offset + 8 + n];
              PngRefuses(data[offset..]) <==>
                || kind in PNG_COLOUR || (kind == PNG_EXIF && !IsUpright(payload))
                || (if kind == IEND then n != 0 else PngRefuses(data[offset + n + 12..]))
  {
    PngChunkAt(data, offset);
    hide BigEndian, IsUpright, HasPngChunk, PngChunk, AfterPngChunk;
  }

  lemma ShortRefuses(s: seq<Byte>)
    ensures |s| < 12 ==> PngRefuses(s)
    ensures |s| < 8 ==> WebPRefuses(s)
  {
  }

  method HasUnsupportedPNGMetadata(data: seq<Byte>) returns (r: bool)
    ensures r <==> !(PNG_SIGNATURE <= data) || PngRefuses(data[8..])
  {
    hide PngRefuses, BigEndian, IsOrientation;
    if |data| < 8 || data[..8] != PNG_SIGNATURE { return true; }
    var offset := 8;
    while offset + 12 <= |data|
      invariant 8 <= offset <= |data|
      invariant PngRefuses(data[8..]) <==> PngRefuses(data[offset..])
      decreases |data| - offset
    {
      PngRefusesAt(data, offset);
      var length := BigEndian(data[offset..offset + 4]);
      if length > |data| - offset - 12 { return true; }
      var kind := data[offset + 4..offset + 8];
      var payloadStart := offset + 8;
      if kind in PNG_COLOUR {
        return true;
      } else if kind == PNG_EXIF {
        var orientation := ReadEXIFOrientation(data[payloadStart..payloadStart + length]);
        UprightIsOrientation(data[payloadStart..payloadStart + length], orientation);
        if orientation.Invalid? || (orientation.Present? && orientation.value != 1) { return true; }
      }
      offset := offset + length + 12;
      if kind == IEND { return length != 0; }
    }
    ShortRefuses(data[offset..]);
    return true;
  }

  lemma UprightIsOrientation(exif: seq<Byte>, r: Orientation)
    requires IsOrientation(exif, r)
    ensures IsUpright(exif) <==> r == Absent || r == Present(1)
  {
    if IsOrientation(exif, Absent) {
      OneOrientation(exif, r, Absent);
    }
    if IsOrientation(exif, Present(1)) {
      OneOrientation(exif, r, Present(1));
    }
  }

  lemma PngChunkParts(s: seq<Byte>)
    requires HasPngChunk(s)
    ensures s == PngChunkBytes(PngChunk(s)) + AfterPngChunk(s) && |PngChunk(s).payload| < LIMIT_32
    ensures |AfterPngChunk(s)| < |s|
  {
    hide BigEndian, BigEndianBytes;
    FourBytes(0, s[..4]);
    var n := BigEndian(s[..4]);
    Pieces(s, 4, 8, 8 + n, 12 + n);
  }

  lemma PngChunkRoundTrip(c: Chunk, rest: seq<Byte>)
    requires IsPlainPngChunk(c)
    ensures HasPngChunk(PngChunkBytes(c) + rest) && PngChunk(PngChunkBytes(c) + rest) == c
      && AfterPngChunk(PngChunkBytes(c) + rest) == rest
  {
    hide BigEndian, BigEndianBytes;
    var s, n := PngChunkBytes(c) + rest, |c.payload|;
    FourBytes(n, [0, 0, 0, 0]);
    PiecesOf(BigEndianBytes(n, 4), c.kind, c.payload, c.trailer, rest);
  }

  lemma {:induction false} AcceptedPngParses(s: seq<Byte>) returns (chunks: seq<Chunk>, rest: seq<Byte>)
    requires !PngRefuses(s)
    ensures s == PngBytes(chunks) + rest && IsPlainPng(chunks)
    decreases |s|
  {
    var c := PngChunk(s);
    PngChunkParts(s);
    hide IsPlainPngChunk, PngChunk, AfterPngChunk, PngChunkBytes;
    if c.kind == IEND {
      chunks, rest := [c], AfterPngChunk(s);
      assert PngBytes(chunks) == PngChunkBytes(c) + PngBytes([]);
    } else {
      var more;
      more, rest := AcceptedPngParses(AfterPngChunk(s));
      chunks := [c] + more;
      assert chunks[1..] == more;
      PlainPngGrows(c, more);
    }
  }

  lemma PlainPngGrows(c: Chunk, more: seq<Chunk>)
    requires IsPlainPngChunk(c) && c.kind != IEND && IsPlainPng(more)
    ensures IsPlainPng([c] + more)
  {
    hide IsPlainPngChunk;
  }

  lemma {:induction false} PlainPngIsAccepted(chunks: seq<Chunk>, rest: seq<Byte>)
    requires IsPlainPng(chunks)
    ensures !PngRefuses(PngBytes(chunks) + rest)
  {
    var c, more := chunks[0], chunks[1..];
    PngFirst(chunks, rest);
    PngChunkRoundTrip(c, PngBytes(more) + rest);
    PlainPngShrinks(chunks);
    hide IsPlainPngChunk, IsPlainPng, PngBytes, PngChunkBytes, HasPngChunk, PngChunk, AfterPngChunk;
    if c.kind != IEND {
      PlainPngIsAccepted(more, rest);
    }
  }

  lemma PngFirst(chunks: seq<Chunk>, rest: seq<Byte>)
    requires chunks != []
    ensures PngBytes(chunks) + rest == PngChunkBytes(chunks[0]) + (PngBytes(chunks[1..]) + rest)
  {
  }

  lemma PlainPngShrinks(chunks: seq<Chunk>)
    requires IsPlainPng(chunks)
    ensures IsPlainPngChunk(chunks[0])
    ensures if chunks[0].kind == IEND then chunks[0].payload == [] else IsPlainPng(chunks[1..])
  {
    hide IsPlainPngChunk;
    assert chunks[0] in chunks && chunks[0].kind != IEND ==> |chunks| > 1;
  }

  /**
   The PNG walker lets an image pass exactly if its bytes are the signature and a complete list of chunks,
   none of which describes colours, with an orientation that is absent or upright.
   */
  lemma PngIsRefusedExactly(data: seq<Byte>)
    ensures (PNG_SIGNATURE <= data && !PngRefuses(data[8..])) <==>
      exists chunks: seq<Chunk>, rest: seq<Byte> ::
        IsPlainPng(chunks) && data == PNG_SIGNATURE + PngBytes(chunks) + rest
  {
    hide IsPlainPng, PngRefuses, PngBytes;
    if PNG_SIGNATURE <= data && !PngRefuses(data[8..]) {
      var chunks, rest := AcceptedPngParses(data[8..]);
      assert data == PNG_SIGNATURE + PngBytes(chunks) + rest;
    }
    if chunks: seq<Chunk>, rest: seq<Byte> :| IsPlainPng(chunks) && data == PNG_SIGNATURE + PngBytes(chunks) + rest {
      assert data[8..] == PngBytes(chunks) + rest;
      PlainPngIsAccepted(chunks, rest);
    }
  }

  // ---- WebP ----

  const RIFF: seq<Byte> := [82, 73, 70, 70]
  const WEBP: seq<Byte> := [87, 69, 66, 80]
  const ICCP: seq<Byte> := [73, 67, 67, 80]
  const ANIM: seq<Byte> := [65, 78, 73, 77]
  const ANMF: seq<Byte> := [65, 78, 77, 70]
  const VP8X: seq<Byte> := [86, 80, 56, 88]
  const WEBP_EXIF: seq<Byte> := [69, 88, 73, 70]

  // The flags for a colour profile, EXIF and animation.
  predicate HasForbiddenFlag(flags: Byte) {
    (flags / 32) % 2 == 1 || (flags / 8) % 2 == 1 || (flags / 2) % 2 == 1
  }

  predicate IsWebPChunk(c: Chunk) {
    |c.kind| == 4 && |c.payload| < LIMIT_32 && |c.trailer| == |c.payload| % 2
  }

  predicate IsPlainWebPChunk(c: Chunk) {
    && IsWebPChunk(c)
    && c.kind !in {ICCP, ANIM, ANMF}
    && (c.kind == VP8X ==> |c.payload| == 10 && !HasForbiddenFlag(c.payload[0]))
    && (c.kind == WEBP_EXIF ==> IsUpright(c.payload))
  }

  function WebPChunkBytes(c: Chunk): seq<Byte> {
    c.kind + LittleEndianBytes(|c.payload|, 4) + c.payload + c.trailer
  }

  function WebPBytes(chunks: seq<Chunk>): seq<Byte> {
    if chunks == [] then [] else WebPChunkBytes(chunks[0]) + WebPBytes(chunks[1..])
  }

  predicate IsPlainWebP(chunks: seq<Chunk>) {
    chunks != [] && forall c <- chunks :: IsPlainWebPChunk(c)
  }

  function PaddedLength(s: seq<Byte>): nat
    requires |s| >= 8
  {
    LittleEndian(s[4..8]) + LittleEndian(s[4..8]) % 2
  }

  predicate HasWebPChunk(s: seq<Byte>) {
    |s| >= 8 && PaddedLength(s) <= |s| - 8
  }

  function WebPChunk(s: seq<Byte>): Chunk
    requires HasWebPChunk(s)
  {
    var n := LittleEndian(s[4..8]);
    Chunk(s[..4], s[8..8 + n], s[8 + n..8 + n + n % 2])
  }

  function AfterWebPChunk(s: seq<Byte>): seq<Byte>
    requires HasWebPChunk(s)
  {
    s[8 + PaddedLength(s)..]
  }

  predicate WebPRefuses(s: seq<Byte>)
    decreases |s|
  {
    if !HasWebPChunk(s) || !IsPlainWebPChunk(WebPChunk(s)) then true
    else AfterWebPChunk(s) != [] && WebPRefuses(AfterWebPChunk(s))
  }

  // The bytes up to the end that the header declares.
  function DeclaredEnd(data: seq<Byte>): nat
    requires |data| >= 12
  {
    LittleEndian(data[4..8]) + 8
  }

  predicate IsWebP(data: seq<Byte>) {
    |data| >= 12 && data[..4] == RIFF && data[8..12] == WEBP
  }

  predicate IsPlainWebPFile(data: seq<Byte>) {
    IsWebP(data) && 12 <= DeclaredEnd(data) <= |data| && !WebPRefuses(data[12..DeclaredEnd(data)])
  }

  lemma WebPChunkAt(data: seq<Byte>, offset: nat, end: nat)
    requires offset + 8 <= end <= |data|
    ensures var s, n := data[offset..end], LittleEndian(data[offset + 4..offset + 8]);
            && n < LIMIT_32 && PaddedLength(s) == n + n % 2 && s[..4] == data[offset..offset + 4]
            && (HasWebPChunk(s) ==>
                  && WebPChunk(s).kind == data[offset..offset + 4]
                  && WebPChunk(s).payload == data[offset + 8..offset + 8 + n] && |WebPChunk(s).trailer| == n % 2
                  && AfterWebPChunk(s) == data[offset + 8 + n + n % 2..end])
  {
    hide LittleEndian;
    var s := data[offset..end];
    SliceOfSlice(data, offset, end, 0, 4);
    SliceOfSlice(data, offset, end, 4, 8);
    FourBytes(0, s[4..8]);
    var n := LittleEndian(s[4..8]);
    if n + n % 2 <= |s| - 8 {
      SliceOfSlice(data, offset, end, 8, 8 + n);
      SliceOfSlice(data, offset, end, 8 + n + n % 2, |s|);
    }
  }

  lemma WebPRefusesAt(data: seq<Byte>, offset: nat, end: nat)
    requires offset + 8 <= end <= |data|
    ensures var n := LittleEndian(data[offset + 4..offset + 8]);
            if n + n % 2 > end - offset - 8 then WebPRefuses(data[offset..end])
            else
              var kind, payload, after := data[offset..offset + 4], data[offset + 8..offset + 8 + n],
                offset + 8 + n + n % 2;
              WebPRefuses(data[offset..end]) <==>
                || kind in {ICCP, ANIM, ANMF}
                || (kind == VP8X && (|payload| != 10 || HasForbiddenFlag(payload[0])))
                || (kind == WEBP_EXIF && !IsUpright(payload))
                || (after != end && WebPRefuses(data[after..end]))
  {
    WebPChunkAt(data, offset, end);
    hide LittleEndian, IsUpright, WebPChunk, AfterWebPChunk, HasForbiddenFlag;
  }

  method HasUnsupportedWebPMetadata(data: seq<Byte>) returns (r: bool)
    ensures r <==> !IsPlainWebPFile(data)
  {
    hide WebPRefuses, LittleEndian, IsOrientation, HasForbiddenFlag;
    if |data| < 12 || data[..4] != RIFF || data[8..12] != WEBP { return true; }
    var declaredEnd := LittleEndian(data[4..8]) + 8;
    if declaredEnd < 12 || declaredEnd > |data| { return true; }
    var offset := 12;
    while offset + 8 <= declaredEnd
      invariant 12 <= offset <= declaredEnd
      invariant WebPRefuses(data[12..declaredEnd]) <==> WebPRefuses(data[offset..declaredEnd])
      decreases declaredEnd - offset
    {
      WebPRefusesAt(data, offset, declaredEnd);
      var kind := data[offset..offset + 4];
      var length := LittleEndian(data[offset + 4..offset + 8]);
      var paddedLength := length + length % 2;
      if paddedLength > declaredEnd - offset - 8 { return true; }
      var payload := data[offset + 8..offset + 8 + length];
      if kind == ICCP || kind == ANIM || kind == ANMF {
        return true;
      } else if kind == VP8X {
        if |payload| != 10 || HasForbiddenFlag(payload[0]) { return true; }
      } else if kind == WEBP_EXIF {
        var orientation := ReadEXIFOrientation(payload);
        UprightIsOrientation(payload, orientation);
        if orientation.Invalid? || (orientation.Present? && orientation.value != 1) { return true; }
      }
      offset := offset + 8 + paddedLength;
      if offset == declaredEnd { return false; }
    }
    ShortRefuses(data[offset..declaredEnd]);
    return true;
  }

  lemma WebPChunkParts(s: seq<Byte>)
    requires HasWebPChunk(s)
    ensures s == WebPChunkBytes(WebPChunk(s)) + AfterWebPChunk(s) && |AfterWebPChunk(s)| < |s|
    ensures IsWebPChunk(WebPChunk(s))
  {
    hide LittleEndian, LittleEndianBytes;
    FourBytes(0, s[4..8]);
    var n := LittleEndian(s[4..8]);
    Pieces(s, 4, 8, 8 + n, 8 + n + n % 2);
  }

  lemma WebPChunkRoundTrip(c: Chunk, rest: seq<Byte>)
    requires IsWebPChunk(c)
    ensures HasWebPChunk(WebPChunkBytes(c) + rest) && WebPChunk(WebPChunkBytes(c) + rest) == c
      && AfterWebPChunk(WebPChunkBytes(c) + rest) == rest
  {
    hide LittleEndian, LittleEndianBytes;
    var s, n := WebPChunkBytes(c) + rest, |c.payload|;
    FourBytes(n, [0, 0, 0, 0]);
    PiecesOf(c.kind, LittleEndianBytes(n, 4), c.payload, c.trailer, rest);
  }

  lemma {:induction false} AcceptedWebPParses(s: seq<Byte>) returns (chunks: seq<Chunk>)
    requires !WebPRefuses(s)
    ensures s == WebPBytes(chunks) && IsPlainWebP(chunks)
    decreases |s|
  {
    var c, after := WebPChunk(s), AfterWebPChunk(s);
    WebPChunkParts(s);
    hide IsPlainWebPChunk, WebPChunk, AfterWebPChunk, WebPChunkBytes;
    if after == [] {
      chunks := [c];
      assert WebPBytes(chunks) == WebPChunkBytes(c) + WebPBytes([]);
    } else {
      var more := AcceptedWebPParses(after);
      chunks := [c] + more;
      assert chunks[1..] == more;
    }
  }

  lemma {:induction false} PlainWebPIsAccepted(chunks: seq<Chunk>)
    requires IsPlainWebP(chunks)
    ensures !WebPRefuses(WebPBytes(chunks))
  {
    var c, more := chunks[0], chunks[1..];
    assert IsPlainWebPChunk(c);
    WebPChunkRoundTrip(c, WebPBytes(more));
    if more != [] {
      PlainWebPIsAccepted(more);
    }
  }

  function WebPFile(chunks: seq<Chunk>, rest: seq<Byte>): seq<Byte> {
    RIFF + LittleEndianBytes(4 + |WebPBytes(chunks)|, 4) + WEBP + WebPBytes(chunks) + rest
  }

  /**
   The WebP walker lets an image pass exactly if its bytes are the header and, up to the declared end, a
   complete list of chunks without profile, animation or other orientation.
   */
  lemma WebPIsRefusedExactly(data: seq<Byte>)
    ensures IsPlainWebPFile(data) <==>
      exists chunks: seq<Chunk>, rest: seq<Byte> ::
        IsPlainWebP(chunks) && 4 + |WebPBytes(chunks)| < LIMIT_32 && data == WebPFile(chunks, rest)
  {
    hide IsPlainWebP, WebPRefuses, WebPBytes, LittleEndian, LittleEndianBytes;
    if IsPlainWebPFile(data) {
      var end := DeclaredEnd(data);
      var chunks := AcceptedWebPParses(data[12..end]);
      FourBytes(0, data[4..8]);
      Pieces(data, 4, 8, 12, end);
      assert data == WebPFile(chunks, data[end..]);
    }
    if chunks: seq<Chunk>, rest: seq<Byte> :|
      IsPlainWebP(chunks) && 4 + |WebPBytes(chunks)| < LIMIT_32 && data == WebPFile(chunks, rest) {
      var n := |WebPBytes(chunks)|;
      FourBytes(4 + n, [0, 0, 0, 0]);
      PiecesOf(RIFF, LittleEndianBytes(4 + n, 4), WEBP, WebPBytes(chunks), rest);
      PlainWebPIsAccepted(chunks);
    }
  }

  // ---- Animation ----

  predicate WebPAnimates(s: seq<Byte>)
    decreases |s|
  {
    |s| >= 8 && (s[..4] in {ANIM, ANMF} || (HasWebPChunk(s) && WebPAnimates(AfterWebPChunk(s))))
  }

  method IsAnimatedWebP(data: seq<Byte>) returns (r: bool)
    ensures r <==> IsWebP(data) && var end := if DeclaredEnd(data) > |data| then |data| else DeclaredEnd(data);
      end >= 12 && WebPAnimates(data[12..end])
  {
    if |data| < 12 || data[..4] != RIFF || data[8..12] != WEBP { return false; }
    var declaredEnd := LittleEndian(data[4..8]) + 8;
    if declaredEnd > |data| {
      declaredEnd := |data|;
    }
    var offset := 12;
    while offset + 8 <= declaredEnd
      invariant 12 <= offset && (declaredEnd >= 12 ==> offset <= declaredEnd)
      invariant declaredEnd >= 12 ==> (WebPAnimates(data[12..declaredEnd]) <==> WebPAnimates(data[offset..declaredEnd]))
      decreases declaredEnd - offset
    {
      WebPChunkAt(data, offset, declaredEnd);
      var kind := data[offset..offset + 4];
      var length := LittleEndian(data[offset + 4..offset + 8]);
      if kind == ANIM || kind == ANMF { return true; }
      var paddedLength := length + length % 2;
      if paddedLength > declaredEnd - offset - 8 { return false; }
      offset := offset + 8 + paddedLength;
    }
    return false;
  }

  lemma {:induction false} AnimationIsRefused(s: seq<Byte>)
    requires WebPAnimates(s)
    ensures WebPRefuses(s)
    decreases |s|
  {
    if HasWebPChunk(s) && s[..4] !in {ANIM, ANMF} {
      AnimationIsRefused(AfterWebPChunk(s));
    }
  }

  predicate StartsAnimation(tail: seq<Byte>) {
    |tail| >= 8 && tail[..4] in {ANIM, ANMF}
  }

  lemma {:induction false} AnimationParses(s: seq<Byte>) returns (chunks: seq<Chunk>, tail: seq<Byte>)
    requires WebPAnimates(s)
    ensures s == WebPBytes(chunks) + tail && StartsAnimation(tail) && forall c <- chunks :: IsWebPChunk(c)
    decreases |s|
  {
    if s[..4] in {ANIM, ANMF} {
      chunks, tail := [], s;
      assert WebPBytes([]) + s == s;
    } else {
      var c, after := WebPChunk(s), AfterWebPChunk(s);
      WebPChunkParts(s);
      hide WebPChunk, AfterWebPChunk, WebPChunkBytes;
      var more;
      more, tail := AnimationParses(after);
      chunks := [c] + more;
      hide IsWebPChunk, StartsAnimation, WebPAnimates;
      assert chunks[1..] == more;
      assert WebPBytes(chunks) + tail == WebPChunkBytes(c) + (WebPBytes(more) + tail);
    }
  }

  lemma {:induction false} AnimationIsFound(chunks: seq<Chunk>, tail: seq<Byte>)
    requires StartsAnimation(tail) && forall c <- chunks :: IsWebPChunk(c)
    ensures WebPAnimates(WebPBytes(chunks) + tail)
  {
    if chunks == [] {
      assert WebPBytes(chunks) + tail == tail;
    } else {
      var c, more := chunks[0], chunks[1..];
      assert WebPBytes(chunks) + tail == WebPChunkBytes(c) + (WebPBytes(more) + tail);
      WebPChunkRoundTrip(c, WebPBytes(more) + tail);
      AnimationIsFound(more, tail);
      hide WebPBytes, WebPChunkBytes, WebPChunk, AfterWebPChunk, IsWebPChunk;
    }
  }

  /** A WebP image counts as animated exactly if some whole chunks lead to the header of an animation chunk. */
  lemma AnimatesExactly(s: seq<Byte>)
    ensures WebPAnimates(s) <==>
      exists chunks: seq<Chunk>, tail: seq<Byte> ::
        (forall c <- chunks :: IsWebPChunk(c)) && StartsAnimation(tail) && s == WebPBytes(chunks) + tail
  {
    hide WebPAnimates, WebPBytes, IsWebPChunk, StartsAnimation;
    if WebPAnimates(s) {
      var chunks, tail := AnimationParses(s);
    }
    if chunks: seq<Chunk>, tail: seq<Byte> :|
      (forall c <- chunks :: IsWebPChunk(c)) && StartsAnimation(tail) && s == WebPBytes(chunks) + tail {
      AnimationIsFound(chunks, tail);
    }
  }

  /** No animated WebP passes as a plain one: whatever one walker calls animated, the other refuses. */
  lemma AnimatedWebPIsUnsupported(data: seq<Byte>, end: nat)
    requires IsWebP(data) && end == (if DeclaredEnd(data) > |data| then |data| else DeclaredEnd(data))
    requires end >= 12 && WebPAnimates(data[12..end])
    ensures !IsPlainWebPFile(data)
  {
    AnimationIsRefused(data[12..end]);
  }
}
