/** The walker of pkg/tumblr/media.go over the segments of a JPEG image. */
module JpegMetadata {
  import opened Wrappers
  import opened Bytes
  import opened ImageMetadata

  // A segment is introduced by one or more fill bytes; some markers stand alone.
  datatype Segment = Segment(fill: nat, marker: Byte, payload: Option<seq<Byte>>)

  const FILL: Byte := 0xff
  const START: seq<Byte> := [0xff, 0xd8]
  const ICC_PREFIX: seq<Byte> := [73, 67, 67, 95, 80, 82, 79, 70, 73, 76, 69, 0]

  // The end of the image, or the start of its scan.
  predicate IsEnd(marker: Byte) {
    marker == 0xd9 || marker == 0xda
  }

  predicate StandsAlone(marker: Byte) {
    marker == 0x01 || marker == 0xd8 || 0xd0 <= marker <= 0xd7
  }

  predicate IsPlainPayload(marker: Byte, payload: seq<Byte>) {
    !(marker == 0xe2 && ICC_PREFIX <= payload) && (marker == 0xe1 && EXIF_PREFIX <= payload ==> IsUpright(payload))
  }

  predicate IsPlainSegment(c: Segment) {
    && c.fill > 0 && c.marker != FILL && c.marker != 0 && !IsEnd(c.marker)
    && (c.payload.None? <==> StandsAlone(c.marker))
    && (c.payload.Some? ==> |c.payload.value| + 2 < LIMIT_16 && IsPlainPayload(c.marker, c.payload.value))
  }

  function Fill(n: nat): (s: seq<Byte>)
    ensures |s| == n && forall i | 0 <= i < n :: s[i] == FILL
  {
    seq(n, _ => FILL)
  }

  function SegmentBytes(c: Segment): seq<Byte> {
    Fill(c.fill) + AfterFill(c)
  }

  function AfterFill(c: Segment): (s: seq<Byte>)
    ensures s != [] && s[0] == c.marker
  {
    [c.marker] + if c.payload.None? then [] else BigEndianBytes(|c.payload.value| + 2, 2) + c.payload.value
  }

  function SegmentsBytes(segments: seq<Segment>): seq<Byte> {
    if segments == [] then [] else SegmentBytes(segments[0]) + SegmentsBytes(segments[1..])
  }

  function FillLength(s: seq<Byte>): (n: nat)
    ensures n <= |s| && (forall i | 0 <= i < n :: s[i] == FILL) && (n < |s| ==> s[n] != FILL)
  {
    if s == [] || s[0] != FILL then 0 else 1 + FillLength(s[1..])
  }

  // The bytes from the marker on.
  function Marked(s: seq<Byte>): seq<Byte> {
    s[FillLength(s)..]
  }

  // The segment length after the marker, which counts its own two bytes.
  predicate HasPayload(t: seq<Byte>) {
    |t| >= 3 && 2 <= BigEndian(t[1..3]) <= |t| - 1
  }

  predicate JpegRefuses(s: seq<Byte>)
    decreases |s|, 1
  {
    RoundRefuses(FillLength(s), Marked(s))
  }

  // What the bytes from a marker on decide, given the fill before them.
  predicate RoundRefuses(fill: nat, t: seq<Byte>)
    decreases |t|, 0
  {
    if fill == 0 || t == [] then true
    else if IsEnd(t[0]) then false
    else if StandsAlone(t[0]) then JpegRefuses(t[1..])
    else if t[0] == 0 || !HasPayload(t) then true
    else
      var length := BigEndian(t[1..3]);
      !IsPlainPayload(t[0], t[3..1 + length]) || JpegRefuses(t[1 + length..])
  }

  lemma {:induction false} FillLengthIs(s: seq<Byte>, n: nat)
    requires n <= |s| && (forall i | 0 <= i < n :: s[i] == FILL) && (n < |s| ==> s[n] != FILL)
    ensures FillLength(s) == n
  {
    if n > 0 {
      FillLengthIs(s[1..], n - 1);
    }
  }

  lemma FillEnds(n: nat, rest: seq<Byte>)
    requires rest == [] || rest[0] != FILL
    ensures FillLength(Fill(n) + rest) == n && Marked(Fill(n) + rest) == rest
  {
    FillLengthIs(Fill(n) + rest, n);
  }

  method HasUnsupportedJPEGMetadata(data: seq<Byte>) returns (r: bool)
    ensures r <==> |data| < 4 || !(START <= data) || JpegRefuses(data[2..])
  {
    hide BigEndian, IsOrientation, JpegRefuses, IsPlainPayload;
    if |data| < 4 || data[0] != 0xff || data[1] != 0xd8 { return true; }
    var offset := 2;
    while offset < |data|
      invariant 2 <= offset <= |data|
      invariant JpegRefuses(data[2..]) <==> JpegRefuses(data[offset..])
      decreases |data| - offset
    {
      RefusesAt(data, offset);
      if data[offset] != FILL { return true; }
      ghost var start := offset;
      while offset < |data| && data[offset] == FILL
        invariant start <= offset <= |data|
        invariant forall i | start <= i < offset :: data[i] == FILL
      {
        offset := offset + 1;
      }
      FillUpTo(data, start, offset);
      if offset >= |data| { return true; }
      var marker := data[offset];
      ghost var m := offset;
      assert data[m..][0] == marker && data[m..][1..] == data[m + 1..];
      offset := offset + 1;
      if IsEnd(marker) { return false; }
      if StandsAlone(marker) { continue; }
      if marker == 0 || offset + 2 > |data| { return true; }
      var segmentLength := BigEndian(data[offset..offset + 2]);
      MarkerSlices(data, m, segmentLength);
      if segmentLength < 2 || segmentLength > |data| - offset { return true; }
      var payload := data[offset + 2..offset + segmentLength];
      var plain := PayloadIsPlain(marker, payload);
      if !plain { return true; }
      offset := offset + segmentLength;
    }
    assert data[offset..] == [];
    NothingIsRefused();
    return true;
  }

  method PayloadIsPlain(marker: Byte, payload: seq<Byte>) returns (r: bool)
    ensures r <==> IsPlainPayload(marker, payload)
  {
    if marker == 0xe2 && ICC_PREFIX <= payload {
      return false;
    } else if marker == 0xe1 && EXIF_PREFIX <= payload {
      var orientation := ReadEXIFOrientation(payload);
      UprightIsOrientation(payload, orientation);
      if orientation.Invalid? || (orientation.Present? && orientation.value != 1) { return false; }
    }
    return true;
  }

  lemma NothingIsRefused()
    ensures JpegRefuses([])
  {
  }

  lemma FillUpTo(data: seq<Byte>, start: nat, offset: nat)
    requires start <= offset <= |data| && (forall i | start <= i < offset :: data[i] == FILL)
      && (offset < |data| ==> data[offset] != FILL)
    ensures FillLength(data[start..]) == offset - start
  {
    FillLengthIs(data[start..], offset - start);
  }

  // One round of the walk, from an offset.
  lemma RefusesAt(data: seq<Byte>, offset: nat)
    requires offset < |data|
    ensures var n := FillLength(data[offset..]);
            && (n == 0 <==> data[offset] != FILL) && offset + n <= |data|
            && (JpegRefuses(data[offset..]) <==> RoundRefuses(n, data[offset + n..]))
  {
    MarkedSlice(data, offset);
    hide RoundRefuses, FillLength, Marked;
  }

  lemma MarkedSlice(data: seq<Byte>, offset: nat)
    requires offset < |data|
    ensures var n := FillLength(data[offset..]);
            offset + n <= |data| && Marked(data[offset..]) == data[offset + n..] && (n == 0 <==> data[offset] != FILL)
  {
    assert data[offset..][0] == data[offset];
  }

  lemma FillSplits(s: seq<Byte>)
    ensures s == Fill(FillLength(s)) + Marked(s)
  {
    assert s[..FillLength(s)] == Fill(FillLength(s));
  }

  lemma MarkerSlices(data: seq<Byte>, m: nat, length: nat)
    requires m + 3 <= |data|
    ensures data[m..][1..] == data[m + 1..] && data[m..][1..3] == data[m + 1..m + 3]
    ensures 2 <= length <= |data| - m - 1 ==>
              data[m..][3..1 + length] == data[m + 3..m + 1 + length]
                && data[m..][1 + length..] == data[m + 1 + length..]
  {
    assert data[m..|data|] == data[m..];
    SliceOfSlice(data, m, |data|, 1, 3);
    if 2 <= length <= |data| - m - 1 {
      SliceOfSlice(data, m, |data|, 3, 1 + length);
      SliceOfSlice(data, m, |data|, 1 + length, |data| - m);
    }
  }

  // ---- Exactness ----

  predicate IsEnding(tail: seq<Byte>) {
    FillLength(tail) > 0 && Marked(tail) != [] && IsEnd(Marked(tail)[0])
  }

  lemma {:induction false} AcceptedJpegParses(s: seq<Byte>) returns (segments: seq<Segment>, tail: seq<Byte>)
    requires !JpegRefuses(s)
    ensures s == SegmentsBytes(segments) + tail && IsEnding(tail) && forall c <- segments :: IsPlainSegment(c)
    decreases |s|
  {
    var t := Marked(s);
    RefusesByRound(s);
    assert t != [] && FillLength(s) > 0;
    hide IsPlainSegment, SegmentBytes, JpegRefuses, RoundRefuses, FillLength, Marked;
    if IsEnd(t[0]) {
      segments, tail := [], s;
    } else {
      var c, rest := FirstSegment(s);
      var more;
      more, tail := AcceptedJpegParses(rest);
      segments := [c] + more;
      hide IsEnding;
      assert segments[1..] == more;
      assert s == SegmentBytes(c) + (SegmentsBytes(more) + tail);
    }
  }

  lemma FirstSegment(s: seq<Byte>) returns (c: Segment, rest: seq<Byte>)
    requires !RoundRefuses(FillLength(s), Marked(s)) && !IsEnd(Marked(s)[0])
    ensures IsPlainSegment(c) && s == SegmentBytes(c) + rest && !JpegRefuses(rest) && |rest| < |s|
  {
    var n, t := FillLength(s), Marked(s);
    FillSplits(s);
    hide JpegRefuses, BigEndian, BigEndianBytes, IsPlainPayload, Fill, FillLength, Marked;
    if StandsAlone(t[0]) {
      c, rest := Segment(n, t[0], None), t[1..];
      assert t == AfterFill(c) + rest;
      assert s == SegmentBytes(c) + rest;
    } else {
      c, rest := PayloadSegment(n, t);
      assert t == AfterFill(c) + rest;
      assert s == SegmentBytes(c) + rest;
    }
  }

  lemma PayloadSegment(n: nat, t: seq<Byte>) returns (c: Segment, rest: seq<Byte>)
    requires HasPayload(t)
    ensures c == Segment(n, t[0], Some(t[3..1 + BigEndian(t[1..3])])) && rest == t[1 + BigEndian(t[1..3])..]
    ensures t == [t[0]] + (BigEndianBytes(|c.payload.value| + 2, 2) + c.payload.value) + rest
    ensures |c.payload.value| + 2 < LIMIT_16
  {
    hide BigEndian, BigEndianBytes;
    var length := BigEndian(t[1..3]);
    TwoBytes(0, t[1..3]);
    c, rest := Segment(n, t[0], Some(t[3..1 + length])), t[1 + length..];
    Pieces(t, 1, 3, 1 + length, 1 + length);
    assert t[1 + length..1 + length] == [] && t[..1] == [t[0]];
  }

  lemma SegmentIsWalked(c: Segment, rest: seq<Byte>)
    requires IsPlainSegment(c)
    ensures JpegRefuses(SegmentBytes(c) + rest) <==> JpegRefuses(rest)
  {
    var t := AfterFill(c) + rest;
    assert SegmentBytes(c) + rest == Fill(c.fill) + t;
    FillEnds(c.fill, t);
    RefusesByRound(Fill(c.fill) + t);
    hide JpegRefuses, RoundRefuses, SegmentBytes, Fill, FillLength, Marked;
    RoundIsWalked(c, rest);
  }

  lemma RoundIsWalked(c: Segment, rest: seq<Byte>)
    requires IsPlainSegment(c)
    ensures RoundRefuses(c.fill, AfterFill(c) + rest) <==> JpegRefuses(rest)
  {
    hide BigEndian, BigEndianBytes, IsPlainPayload, JpegRefuses;
    var t := AfterFill(c) + rest;
    if c.payload.None? {
      assert t[1..] == rest;
    } else {
      PayloadIsRead(c.marker, c.payload.value, rest);
      assert t == [c.marker] + (BigEndianBytes(|c.payload.value| + 2, 2) + c.payload.value + rest);
    }
  }

  lemma RefusesByRound(s: seq<Byte>)
    ensures JpegRefuses(s) == RoundRefuses(FillLength(s), Marked(s))
  {
  }

  lemma PayloadIsRead(marker: Byte, payload: seq<Byte>, rest: seq<Byte>)
    requires |payload| + 2 < LIMIT_16
    ensures var t, length := [marker] + (BigEndianBytes(|payload| + 2, 2) + payload + rest), |payload| + 2;
            HasPayload(t) && BigEndian(t[1..3]) == length && t[3..1 + length] == payload && t[1 + length..] == rest
  {
    var size := BigEndianBytes(|payload| + 2, 2);
    TwoBytes(|payload| + 2, [0, 0]);
    AfterMarker(marker, size, payload, rest);
    hide BigEndian, BigEndianBytes;
  }

  lemma AfterMarker(marker: Byte, size: seq<Byte>, payload: seq<Byte>, rest: seq<Byte>)
    requires |size| == 2
    ensures var t := [marker] + (size + payload + rest);
            |t| == 3 + |payload| + |rest| && t[1..3] == size && t[3..3 + |payload|] == payload
              && t[3 + |payload|..] == rest
  {
    var t := [marker] + (size + payload + rest);
    assert t[1..] == size + payload + rest;
    assert t[3..] == payload + rest;
  }

  lemma {:induction false} PlainJpegIsAccepted(segments: seq<Segment>, tail: seq<Byte>)
    requires IsEnding(tail) && forall c <- segments :: IsPlainSegment(c)
    ensures !JpegRefuses(SegmentsBytes(segments) + tail)
  {
    if segments == [] {
      assert SegmentsBytes(segments) + tail == tail;
    } else {
      hide JpegRefuses, IsPlainSegment, IsEnding;
      PlainJpegIsAccepted(segments[1..], tail);
      assert SegmentsBytes(segments) + tail == SegmentBytes(segments[0]) + (SegmentsBytes(segments[1..]) + tail);
      SegmentIsWalked(segments[0], SegmentsBytes(segments[1..]) + tail);
    }
  }

  /**
   The JPEG walker lets an image pass exactly if its bytes are the start marker and plain segments up to the
   end of the image or the start of its scan, without a colour profile or other orientation.
   */
  lemma JpegIsRefusedExactly(data: seq<Byte>)
    ensures (|data| >= 4 && START <= data && !JpegRefuses(data[2..])) <==>
      exists segments: seq<Segment>, tail: seq<Byte> ::
        (forall c <- segments :: IsPlainSegment(c)) && IsEnding(tail) && data == START + SegmentsBytes(segments) + tail
  {
    hide JpegRefuses, IsPlainSegment, SegmentsBytes;
    if |data| >= 4 && START <= data && !JpegRefuses(data[2..]) {
      var segments, tail := AcceptedJpegParses(data[2..]);
      assert data == START + SegmentsBytes(segments) + tail;
    }
    if segments: seq<Segment>, tail: seq<Byte> :|
      (forall c <- segments :: IsPlainSegment(c)) && IsEnding(tail) && data == START + SegmentsBytes(segments) + tail {
      assert data[2..] == SegmentsBytes(segments) + tail;
      PlainJpegIsAccepted(segments, tail);
    }
  }
}
