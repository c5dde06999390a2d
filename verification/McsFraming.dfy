/**
 The frames of the push connection: internal/pushreceiver/mcs.go. A frame is a tag, the payload's size
 as a Base 128 Varint (Protocol Buffers encoding), and the payload.
 */
module McsFraming {
  import opened Wrappers
  import opened Bytes

  datatype Frame = Frame(tag: Byte, payload: seq<Byte>)

  datatype FrameError = Truncated | TooLarge | VersionMismatch | UnknownTag | BadPayload | AckFailed

  const FCM_VERSION: Byte := 41
  const SIZE_LEN_MAX := 5
  const MAX_FRAME_SIZE := 16 * 1024 * 1024
  const HEARTBEAT_PING: Byte := 0
  const HEARTBEAT_ACK: Byte := 1
  const KNOWN_TAGS: set<Byte> := {0, 1, 2, 3, 4, 7, 8, 10}

  // ---- Varints ----

  function Varint(n: nat): (s: seq<Byte>)
    ensures |s| > 0
  {
    if n < 128 then [n] else [n % 128 + 128] + Varint(n / 128)
  }

  // The value at the start of the bytes and the length it takes; nothing if they end before it does.
  function ConsumeVarint(s: seq<Byte>): (r: Option<(nat, nat)>)
    ensures r.Some? ==> 0 < r.value.1 <= |s|
  {
    if s == [] then None
    else if s[0] < 128 then Some((s[0], 1))
    else match ConsumeVarint(s[1..])
      case None => None
      case Some((high, length)) => Some((high * 128 + (s[0] - 128), length + 1))
  }

  lemma {:induction false} VarintRoundTrip(n: nat, rest: seq<Byte>)
    ensures ConsumeVarint(Varint(n) + rest) == Some((n, |Varint(n)|))
    decreases n
  {
    if n >= 128 {
      VarintRoundTrip(n / 128, rest);
      assert (Varint(n) + rest)[1..] == Varint(n / 128) + rest;
    }
  }

  function Power128(k: nat): nat {
    if k == 0 then 1 else 128 * Power128(k - 1)
  }

  /** The bytes are the digits of the number to the base 128, lowest first; all but the last carry the high bit. */
  lemma {:induction false} VarintHasDigits(n: nat, k: nat)
    requires k < |Varint(n)|
    ensures Power128(k) > 0
    ensures Varint(n)[k] == n / Power128(k) % 128 + (if k < |Varint(n)| - 1 then 128 else 0)
    ensures k == |Varint(n)| - 1 ==> n < Power128(k + 1) && (n > 0 ==> Power128(k) <= n)
    decreases n
  {
    if n >= 128 && k > 0 {
      VarintHasDigits(n / 128, k - 1);
      DividedTwice(n, Power128(k - 1));
    }
  }

  lemma DividedTwice(n: nat, p: nat)
    requires p > 0
    ensures n / 128 / p == n / (128 * p)
    ensures n / 128 < 128 * p ==> n < 128 * (128 * p)
    ensures p <= n / 128 ==> 128 * p <= n
  {
    var q := n / 128 / p;
    var r := n / 128 - q * p;
    assert 0 <= r < p;
    var low := n % 128;
    assert n == 128 * (q * p + r) + low == q * (128 * p) + (128 * r + low);
    assert 0 <= 128 * r + low < 128 * p;
    DivisionIs(n, 128 * p, q, 128 * r + low);
  }

  lemma DivisionIs(n: nat, d: nat, q: nat, r: nat)
    requires d > 0 && r < d && n == q * d + r
    ensures n / d == q
  {
    var off := n / d - q;
    assert off * d == r - n % d;
    assert off >= 1 ==> off * d >= d;
    assert off <= -1 ==> off * d <= 0 - d;
  }

  // A prefix that is too short tells nothing.
  lemma {:induction false} VarintNeedsAllBytes(n: nat, k: nat)
    requires k < |Varint(n)|
    ensures ConsumeVarint(Varint(n)[..k]) == None
    decreases n
  {
    if n >= 128 && k > 0 {
      VarintNeedsAllBytes(n / 128, k - 1);
      assert Varint(n)[..k][1..] == Varint(n / 128)[..k - 1];
    }
  }

  // Only the bytes that are consumed matter.
  lemma {:induction false} ConsumePrefix(s: seq<Byte>, k: nat)
    requires k <= |s|
    ensures ConsumeVarint(s[..k]).Some? ==> ConsumeVarint(s) == ConsumeVarint(s[..k])
    ensures ConsumeVarint(s).Some? && ConsumeVarint(s).value.1 <= k ==> ConsumeVarint(s[..k]) == ConsumeVarint(s)
  {
    if s != [] && k > 0 && s[0] >= 128 {
      ConsumePrefix(s[1..], k - 1);
      assert s[..k][1..] == s[1..][..k - 1];
    }
  }

  lemma FourByteVarint(n: nat)
    requires n <= MAX_FRAME_SIZE
    ensures |Varint(n)| <= 4
  {
    assert n / 128 / 128 / 128 < 128;
    assert |Varint(n / 128 / 128 / 128)| == 1;
    assert |Varint(n / 128 / 128)| <= 2;
    assert |Varint(n / 128)| <= 3;
  }

  // ---- Frames ----

  function Encoded(f: Frame): seq<Byte> {
    [f.tag] + Varint(|f.payload|) + f.payload
  }

  function EncodedAll(frames: seq<Frame>): seq<Byte> {
    if frames == [] then [] else Encoded(frames[0]) + EncodedAll(frames[1..])
  }

  // The size at the start of the bytes, which must end within five of them.
  function ReadSize(s: seq<Byte>): (r: Result<(nat, nat), FrameError>)
    ensures r.Ok? ==> 0 < r.value.1 <= |s|
    ensures r.Err? ==> r.error in {Truncated, TooLarge}
  {
    var limited := if |s| > SIZE_LEN_MAX then s[..SIZE_LEN_MAX] else s;
    match ConsumeVarint(limited)
    case None => Err(Truncated)
    case Some((size, length)) => if size > MAX_FRAME_SIZE then Err(TooLarge) else Ok((size, length))
  }

  // The first frame and what follows it.
  function ReadFrame(s: seq<Byte>): (r: Result<(Frame, seq<Byte>), FrameError>)
    ensures r.Err? ==> r.error in {Truncated, TooLarge}
  {
    if s == [] then Err(Truncated)
    else match ReadSize(s[1..])
      case Err(e) => Err(e)
      case Ok((size, length)) =>
        if |s| < 1 + length + size then Err(Truncated)
        else Ok((Frame(s[0], s[1 + length..1 + length + size]), s[1 + length + size..]))
  }

  function ReadFrames(s: seq<Byte>, count: nat): Result<(seq<Frame>, seq<Byte>), FrameError> {
    if count == 0 then Ok(([], s))
    else match ReadFrame(s)
      case Err(e) => Err(e)
      case Ok((frame, rest)) =>
        match ReadFrames(rest, count - 1)
        case Err(e) => Err(e)
        case Ok((frames, end)) => Ok(([frame] + frames, end))
  }

  lemma SizeRoundTrip(n: nat, rest: seq<Byte>)
    ensures n <= MAX_FRAME_SIZE ==> ReadSize(Varint(n) + rest) == Ok((n, |Varint(n)|))
    ensures n > MAX_FRAME_SIZE ==>
      ReadSize(Varint(n) + rest) == Err(if |Varint(n)| <= SIZE_LEN_MAX then TooLarge else Truncated)
  {
    var s := Varint(n) + rest;
    VarintRoundTrip(n, rest);
    if n <= MAX_FRAME_SIZE {
      FourByteVarint(n);
    }
    if |s| > SIZE_LEN_MAX {
      ConsumePrefix(s, SIZE_LEN_MAX);
      if |Varint(n)| > SIZE_LEN_MAX {
        VarintNeedsAllBytes(n, SIZE_LEN_MAX);
        assert s[..SIZE_LEN_MAX] == Varint(n)[..SIZE_LEN_MAX];
      }
    }
  }

  /** A frame that was sent is read back with nothing left over exactly if its payload is within the limit. */
  lemma FrameRoundTrip(f: Frame, rest: seq<Byte>)
    ensures ReadFrame(Encoded(f) + rest) == Ok((f, rest)) <==> |f.payload| <= MAX_FRAME_SIZE
    ensures |f.payload| > MAX_FRAME_SIZE ==> ReadFrame(Encoded(f) + rest).Err?
  {
    var s := Encoded(f) + rest;
    var n := |f.payload|;
    var length := |Varint(n)|;
    assert s[1..] == Varint(n) + (f.payload + rest);
    SizeRoundTrip(n, f.payload + rest);
    if n <= MAX_FRAME_SIZE {
      assert s[1 + length..1 + length + n] == f.payload;
      assert s[1 + length + n..] == rest;
    }
  }

  /** Any list of frames within the limit is read back frame by frame. */
  lemma {:induction false} FramesRoundTrip(frames: seq<Frame>, rest: seq<Byte>)
    requires forall f <- frames :: |f.payload| <= MAX_FRAME_SIZE
    ensures ReadFrames(EncodedAll(frames) + rest, |frames|) == Ok((frames, rest))
  {
    hide ReadFrame, Encoded, EncodedAll, ReadFrames;
    if frames == [] {
      ReadNone(rest);
    } else {
      var first, others := frames[0], frames[1..];
      var more := EncodedAll(others) + rest;
      EncodedFirst(frames, rest);
      assert first in frames;
      FrameRoundTrip(first, more);
      FramesRoundTrip(others, rest);
      ReadOneMore(EncodedAll(frames) + rest, |frames|);
      assert [first] + others == frames;
    }
  }

  lemma ReadNone(rest: seq<Byte>)
    ensures ReadFrames(EncodedAll([]) + rest, 0) == Ok(([], rest))
  {
    assert EncodedAll([]) + rest == rest;
  }

  lemma EncodedFirst(frames: seq<Frame>, rest: seq<Byte>)
    requires frames != []
    ensures EncodedAll(frames) + rest == Encoded(frames[0]) + (EncodedAll(frames[1..]) + rest)
  {
  }

  lemma ReadOneMore(s: seq<Byte>, count: nat)
    requires count > 0 && ReadFrame(s).Ok? && ReadFrames(ReadFrame(s).value.1, count - 1).Ok?
    ensures var (frame, rest) := ReadFrame(s).value;
            var (frames, end) := ReadFrames(rest, count - 1).value;
            ReadFrames(s, count) == Ok(([frame] + frames, end))
  {
    hide ReadFrame;
  }

  /** A connection that ends inside a frame never yields that frame, nor any other one. */
  lemma CutFrameIsTruncated(f: Frame, k: nat)
    requires |f.payload| <= MAX_FRAME_SIZE && k < |Encoded(f)|
    ensures ReadFrame(Encoded(f)[..k]) == Err(Truncated)
  {
    var n := |f.payload|;
    var length := |Varint(n)|;
    var s := Encoded(f)[..k];
    FourByteVarint(n);
    if k > length {
      assert s[1..] == Varint(n) + f.payload[..k - 1 - length];
      SizeRoundTrip(n, f.payload[..k - 1 - length]);
    } else if k > 0 {
      assert s[1..] == Varint(n)[..k - 1];
      VarintNeedsAllBytes(n, k - 1);
    }
  }

  // ---- The connection ----

  // The counter is a 32-bit integer that wraps around.
  function Next32(n: int): int {
    if n == 0x7fff_ffff then -0x8000_0000 else n + 1
  }

  class Connection {
    var unread: seq<Byte>
    var sent: seq<Byte>
    var incomingStreamID: int

    constructor (unread: seq<Byte>)
      ensures this.unread == unread && sent == [] && incomingStreamID == 0
    {
      this.unread, sent, incomingStreamID := unread, [], 0;
    }

    method SendRequest(tag: Byte, payload: seq<Byte>, containVersion: bool)
      modifies this`sent
      ensures sent == old(sent) + (if containVersion then [FCM_VERSION] else []) + Encoded(Frame(tag, payload))
    {
      var header: seq<Byte> := [];
      if containVersion {
        header := header + [FCM_VERSION, tag];
      } else {
        header := header + [tag];
      }
      header := header + Varint(|payload|);
      sent := sent + (header + payload);
      assert sent == old(sent) + (if containVersion then [FCM_VERSION] else []) + Encoded(Frame(tag, payload));
    }

    // A short read uses up what is there.
    method ReadFull(n: nat) returns (buffer: Option<seq<Byte>>)
      modifies this`unread
      ensures buffer.Some? <==> |old(unread)| >= n
      ensures buffer.Some? ==> buffer.value == old(unread)[..n] && unread == old(unread)[n..]
      ensures buffer.None? ==> unread == []
    {
      if |unread| < n {
        unread := [];
        return None;
      }
      buffer := Some(unread[..n]);
      unread := unread[n..];
    }

    method ReceiveVersion() returns (error: Option<FrameError>)
      modifies this`unread
      ensures error.None? <==> |old(unread)| > 0 && old(unread)[0] == FCM_VERSION
      ensures error.None? ==> unread == old(unread)[1..]
      ensures error == Some(Truncated) <==> old(unread) == []
      ensures error == Some(VersionMismatch) <==> old(unread) != [] && old(unread)[0] != FCM_VERSION
    {
      var buffer := ReadFull(1);
      if buffer.None? { return Some(Truncated); }
      return if buffer.value[0] != FCM_VERSION then Some(VersionMismatch) else None;
    }

    // Reads one byte at a time, and not a byte beyond the size.
    method ReceiveSize() returns (r: Result<nat, FrameError>)
      modifies this`unread
      ensures r.Ok? <==> ReadSize(old(unread)).Ok?
      ensures r.Ok? ==>
        r.value == ReadSize(old(unread)).value.0 && unread == old(unread)[ReadSize(old(unread)).value.1..]
      ensures r.Err? ==> r.error == ReadSize(old(unread)).error
    {
      ghost var all := unread;
      var buffer: seq<Byte> := [];
      for offset := 0 to SIZE_LEN_MAX
        invariant offset <= |all| && buffer == all[..offset] && unread == all[offset..]
        invariant ConsumeVarint(buffer) == None
      {
        var b := ReadFull(1);
        if b.None? {
          assert all[..offset] == all;
          return Err(Truncated);
        }
        buffer := buffer + b.value;
        assert buffer == all[..offset + 1];
        var consumed := ConsumeVarint(buffer);
        if consumed.Some? {
          ConsumedLast(all, offset);
          return if consumed.value.0 > MAX_FRAME_SIZE then Err(TooLarge) else Ok(consumed.value.0);
        }
      }
      assert all[..SIZE_LEN_MAX] == if |all| > SIZE_LEN_MAX then all[..SIZE_LEN_MAX] else all;
      return Err(Truncated);
    }

    method ReceiveFrame() returns (r: Result<Frame, FrameError>)
      modifies this`unread
      ensures r.Ok? <==> ReadFrame(old(unread)).Ok?
      ensures r.Ok? ==> (r.value, unread) == ReadFrame(old(unread)).value
      ensures r.Err? ==> r.error == ReadFrame(old(unread)).error
    {
      ghost var all := unread;
      var tag := ReadFull(1);
      if tag.None? { return Err(Truncated); }
      var size := ReceiveSize();
      if size.Err? { return Err(size.error); }
      var payload := ReadFull(size.value);
      if payload.None? { return Err(Truncated); }
      ghost var start := 1 + ReadSize(all[1..]).value.1;
      assert payload.value == all[start..start + size.value] && unread == all[start + size.value..];
      return Ok(Frame(tag.value[0], payload.value));
    }

    // Whether the payload can be decoded, and how the counter is written into an acknowledgement, are not
    // part of this model. A frame that was understood is counted, and a ping is then answered with the new
    // count; if that fails, the frame comes back with an error.
    method PerformReadTag(decodes: seq<Byte> -> bool, ackOf: int -> seq<Byte>, canSend: bool)
      returns (r: Result<Frame, FrameError>)
      modifies this`unread, this`incomingStreamID, this`sent
      ensures var read := ReadFrame(old(unread));
              var understood := read.Ok? && read.value.0.tag in KNOWN_TAGS && decodes(read.value.0.payload);
              var answers := understood && read.value.0.tag == HEARTBEAT_PING;
              && incomingStreamID == (if understood then Next32(old(incomingStreamID)) else old(incomingStreamID))
              && (read.Ok? ==> unread == read.value.1)
              && sent == old(sent) + (if answers && canSend then Encoded(Frame(HEARTBEAT_ACK, ackOf(incomingStreamID)))
                else [])
              && (r.Ok? <==> understood && (answers ==> canSend))
              && (r.Ok? ==> r.value == read.value.0)
              && (r == Err(AckFailed) <==> answers && !canSend)
              && (read.Err? ==> r == Err(read.error))
              && (r == Err(UnknownTag) <==> read.Ok? && read.value.0.tag !in KNOWN_TAGS)
              && (r == Err(BadPayload) <==>
                    read.Ok? && read.value.0.tag in KNOWN_TAGS && !decodes(read.value.0.payload))
    {
      r := ReceiveFrame();
      if r.Err? { return; }
      if r.value.tag !in KNOWN_TAGS { return Err(UnknownTag); }
      if !decodes(r.value.payload) { return Err(BadPayload); }
      incomingStreamID := Next32(incomingStreamID);
      if r.value.tag == HEARTBEAT_PING {
        if !canSend { return Err(AckFailed); }
        SendRequest(HEARTBEAT_ACK, ackOf(incomingStreamID), false);
      }
    }

    // Reads as many frames as were sent.
    method ReceiveFrames(ghost frames: seq<Frame>, count: nat, ghost rest: seq<Byte>) returns (read: seq<Frame>)
      requires count == |frames| && forall f <- frames :: |f.payload| <= MAX_FRAME_SIZE
      requires unread == EncodedAll(frames) + rest
      modifies this`unread
      ensures read == frames && unread == rest
    {
      read := [];
      for i := 0 to count
        invariant read == frames[..i] && unread == EncodedAll(frames[i..]) + rest
      {
        FrameRoundTrip(frames[i], EncodedAll(frames[i + 1..]) + rest);
        assert frames[i..][1..] == frames[i + 1..];
        assert unread == Encoded(frames[i]) + (EncodedAll(frames[i + 1..]) + rest);
        var f := ReceiveFrame();
        read := read + [f.value];
      }
      assert EncodedAll(frames[count..]) + rest == rest;
    }
  }

  // The byte that completes the varint is the last one read.
  lemma ConsumedLast(s: seq<Byte>, offset: nat)
    requires offset < |s| && offset < SIZE_LEN_MAX && ConsumeVarint(s[..offset]) == None
      && ConsumeVarint(s[..offset + 1]).Some?
    ensures ConsumeVarint(s[..offset + 1]).value.1 == offset + 1
    ensures ConsumeVarint(if |s| > SIZE_LEN_MAX then s[..SIZE_LEN_MAX] else s) == ConsumeVarint(s[..offset + 1])
  {
    ConsumePrefix(s[..offset + 1], offset);
    assert s[..offset + 1][..offset] == s[..offset];
    var limited := if |s| > SIZE_LEN_MAX then s[..SIZE_LEN_MAX] else s;
    ConsumePrefix(limited, offset + 1);
    assert limited[..offset + 1] == s[..offset + 1];
  }
}
