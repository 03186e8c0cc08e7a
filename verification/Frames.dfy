/** Length-prefixed frames: how either daemon builds one, and how the provider cuts a byte
    stream into them. */
module Frames {
  import opened Bytes

  const SPMP_MAGIC: u32 := 0x53504D50
  const MAX_FRAME_SIZE := 65536
  const HEADER_LEN := 9

  datatype MsgType = HandshakeInit | HandshakeAck | TicketRequest | ComputeResp | WinNotify | ErrorHalt

  datatype WireError =
    | FrameTooShort | BadMagic | UnknownMsgType | UnexpectedMsgType | FrameTooLong | Truncated
    | BadTicketAbi | BadAckLength | EmptyPayload | InvalidUtf8

  function Code(m: MsgType): byte {
    match m
    case HandshakeInit => 0x01
    case HandshakeAck => 0x02
    case TicketRequest => 0x03
    case ComputeResp => 0x04
    case WinNotify => 0x05
    case ErrorHalt => 0xFF
  }

  /** `MsgType::from_u8`. */
  function FromCode(b: byte): Option<MsgType> {
    match b
    case 0x01 => Some(HandshakeInit)
    case 0x02 => Some(HandshakeAck)
    case 0x03 => Some(TicketRequest)
    case 0x04 => Some(ComputeResp)
    case 0x05 => Some(WinNotify)
    case 0xFF => Some(ErrorHalt)
    case _ => None
  }

  lemma FromCodeIff(b: byte, m: MsgType)
    ensures FromCode(b) == Some(m) <==> b == Code(m)
  {
  }

  // ------------------------------------------------------------------------- the layout

  const MAGIC_BYTES: bytes := ToBE(SPMP_MAGIC, 4)

  /** magic || type || length; the length field holds the low 32 bits. */
  function Header(code: byte, length: nat): (s: bytes)
    ensures |s| == HEADER_LEN
  {
    MAGIC_BYTES + [code] + ToLE(length, 4)
  }

  /** A frame as it is sent. */
  function Frame(code: byte, payload: bytes): (s: bytes)
    ensures |s| == HEADER_LEN + |payload|
  {
    Header(code, |payload|) + payload
  }

  /** A frame as `read_frame` hands it on: the length field is dropped. */
  function Body(code: byte, payload: bytes): (s: bytes)
    ensures |s| == 5 + |payload|
  {
    MAGIC_BYTES + [code] + payload
  }

  method BuildFrame(msgType: MsgType, payload: bytes) returns (out: bytes)
    ensures out == Frame(Code(msgType), payload)
  {
    out := [];
    out := out + ToBE(SPMP_MAGIC, 4);
    out := out + [Code(msgType)];
    out := out + ToLE(|payload|, 4);
    out := out + payload;
  }

  /** Splits a body into its type and payload. */
  function SplitFrame(buf: bytes): (r: Result<(MsgType, bytes), WireError>)
  {
    if |buf| < 5 then Err(FrameTooShort)
    else if FromBE(buf[..4]) != SPMP_MAGIC then Err(BadMagic)
    else
      match FromCode(buf[4])
      case None => Err(UnknownMsgType)
      case Some(m) => Ok((m, buf[5..]))
  }

  lemma MagicIff(s: bytes)
    requires |s| == 4
    ensures FromBE(s) == SPMP_MAGIC <==> s == MAGIC_BYTES
  {
    PowerValues();
    ToFromBE(s);
    FromToBE(SPMP_MAGIC, 4);
  }

  /** Splitting accepts exactly the bodies of known types, each as its own parts. */
  lemma SplitFrameIff(buf: bytes, m: MsgType, payload: bytes)
    ensures SplitFrame(buf) == Ok((m, payload)) <==> buf == Body(Code(m), payload)
  {
    if |buf| >= 5 {
      MagicIff(buf[..4]);
      FromCodeIff(buf[4], m);
      assert buf == buf[..4] + [buf[4]] + buf[5..];
    }
    if buf == Body(Code(m), payload) {
      assert buf[..4] == MAGIC_BYTES && buf[4] == Code(m) && buf[5..] == payload;
    }
  }

  // -------------------------------------------------------------------------- the stream

  /** One `read_frame` on a stream with these bytes left: a body and what follows it, the end
      of the stream, or an error. A stream that ends inside a header counts as ended. */
  datatype Read = Got(body: bytes, rest: bytes) | EndOfStream | Failed(error: WireError)

  function ReadFrame(s: bytes): (r: Read)
    ensures r.Got? ==> |r.rest| < |s|
  {
    if |s| < HEADER_LEN then EndOfStream
    else if FromBE(s[..4]) != SPMP_MAGIC then Failed(BadMagic)
    else
      var length := FromLE(s[5..9]);
      if length > MAX_FRAME_SIZE then Failed(FrameTooLong)
      else if |s| - HEADER_LEN < length then Failed(Truncated)
      else Got(Body(s[4], s[9..9 + length]), s[9 + length..])
  }

  /** Why a body is not split. */
  lemma SplitFailsIff(buf: bytes, e: WireError)
    ensures SplitFrame(buf) == Err(e)
            <==> match e
                 case FrameTooShort => |buf| < 5
                 case BadMagic => |buf| >= 5 && buf[..4] != MAGIC_BYTES
                 case UnknownMsgType => |buf| >= 5 && buf[..4] == MAGIC_BYTES && forall m :: buf[4] != Code(m)
                 case _ => false
  {
    if |buf| >= 5 {
      MagicIff(buf[..4]);
      UnknownCodeIff(buf[4]);
    }
  }

  lemma UnknownCodeIff(b: byte)
    ensures FromCode(b) == None <==> forall m :: b != Code(m)
  {
    if FromCode(b).Some? {
      assert b == Code(FromCode(b).value);
    }
    forall m | b == Code(m) ensures FromCode(b).Some? {
      FromCodeIff(b, m);
    }
  }

  /** How reading stops: at an end inside a header, or for the first thing wrong with a frame. */
  lemma ReadStopsIff(s: bytes, e: WireError)
    ensures ReadFrame(s) == EndOfStream <==> |s| < 9
    ensures ReadFrame(s) == Failed(e)
            <==> |s| >= 9
                 && match e
                    case BadMagic => s[..4] != MAGIC_BYTES
                    case FrameTooLong => s[..4] == MAGIC_BYTES && FromLE(s[5..9]) > 65536
                    case Truncated =>
                      s[..4] == MAGIC_BYTES && FromLE(s[5..9]) <= 65536 && |s| < 9 + FromLE(s[5..9])
                    case _ => false
  {
    if |s| >= 9 {
      MagicIff(s[..4]);
    }
  }

  /** A frame with its type byte, known or not, and its payload. */
  datatype RawFrame = RawFrame(code: byte, payload: bytes)

  ghost predicate Sendable(f: RawFrame)
  {
    |f.payload| <= MAX_FRAME_SIZE
  }

  lemma FrameParts(f: RawFrame, rest: bytes)
    ensures var s := Frame(f.code, f.payload) + rest;
            && s[..4] == MAGIC_BYTES && s[4] == f.code && s[5..9] == ToLE(|f.payload|, 4)
            && s[9..9 + |f.payload|] == f.payload && s[9 + |f.payload|..] == rest
  {
    var s, h := Frame(f.code, f.payload) + rest, Header(f.code, |f.payload|);
    assert s[..9] == h && s[4] == h[4];
    assert s[..4] == s[..9][..4] == h[..4] && s[5..9] == s[..9][5..] == h[5..];
    assert h[..4] == MAGIC_BYTES && h[5..] == ToLE(|f.payload|, 4);
  }

  /** The converse: a buffer with a frame's header and enough bytes starts with that frame. */
  lemma FrameOf(s: bytes, n: nat)
    requires HEADER_LEN + n <= |s| && s[..4] == MAGIC_BYTES && s[5..9] == ToLE(n, 4)
    ensures Frame(s[4], s[9..9 + n]) == s[..9 + n]
  {
    assert s[..9] == s[..4] + [s[4]] + s[5..9];
    assert s[..9 + n] == s[..9] + s[9..9 + n];
  }

  /** Reading gives a frame exactly when the stream starts with that frame. */
  lemma ReadFrameIff(s: bytes, f: RawFrame, rest: bytes)
    requires Sendable(f)
    ensures ReadFrame(s) == Got(Body(f.code, f.payload), rest) <==> s == Frame(f.code, f.payload) + rest
  {
    PowerValues();
    if s == Frame(f.code, f.payload) + rest {
      FrameParts(f, rest);
      MagicIff(s[..4]);
      FromToLE(|f.payload|, 4);
    }
    if ReadFrame(s) == Got(Body(f.code, f.payload), rest) {
      var length := FromLE(s[5..9]);
      MagicIff(s[..4]);
      ToFromLE(s[5..9]);
      BodyInjective(s[4], s[9..9 + length], f.code, f.payload);
      FrameOf(s, length);
      assert s == s[..9 + length] + s[9 + length..];
    }
  }

  lemma BodyInjective(c: byte, p: bytes, c': byte, p': bytes)
    ensures Body(c, p) == Body(c', p') <==> c == c' && p == p'
  {
    if Body(c, p) == Body(c', p') {
      assert c == Body(c, p)[4] && p == Body(c, p)[5..];
      assert c' == Body(c', p')[4] && p' == Body(c', p')[5..];
    }
  }

  /** A frame whose length field exceeds the limit is refused by its header alone. */
  lemma OversizeRefused(f: RawFrame, rest: bytes)
    requires MAX_FRAME_SIZE < |f.payload| < TWO_32
    ensures ReadFrame(Frame(f.code, f.payload) + rest) == Failed(FrameTooLong)
  {
    PowerValues();
    FrameParts(f, rest);
    MagicIff(MAGIC_BYTES);
    FromToLE(|f.payload|, 4);
  }

  /** How reading a stream to the end goes: the bodies in order, and how it stopped. */
  datatype Transcript = Transcript(bodies: seq<bytes>, failure: Option<WireError>)

  function ReadAll(s: bytes): Transcript
    decreases |s|
  {
    match ReadFrame(s)
    case EndOfStream => Transcript([], None)
    case Failed(e) => Transcript([], Some(e))
    case Got(body, rest) =>
      var t := ReadAll(rest);
      Transcript([body] + t.bodies, t.failure)
  }

  function Bodies(fs: seq<RawFrame>): (bs: seq<bytes>)
    ensures |bs| == |fs|
  {
    if fs == [] then [] else [Body(fs[0].code, fs[0].payload)] + Bodies(fs[1..])
  }

  /** The frames, sent one after another. */
  function Sent(fs: seq<RawFrame>): bytes
  {
    if fs == [] then [] else Frame(fs[0].code, fs[0].payload) + Sent(fs[1..])
  }

  ghost predicate AllSendable(fs: seq<RawFrame>)
  {
    forall f | f in fs :: Sendable(f)
  }

  lemma OneFrameFirst(f: RawFrame, rest: bytes)
    requires Sendable(f)
    ensures ReadAll(Frame(f.code, f.payload) + rest)
            == Transcript([Body(f.code, f.payload)] + ReadAll(rest).bodies, ReadAll(rest).failure)
  {
    ReadFrameIff(Frame(f.code, f.payload) + rest, f, rest);
  }

  /** Frames at the front of a stream are read back in order, whatever follows them: more frames,
      a broken one, or nothing. */
  lemma {:induction false} FramesComeFirst(fs: seq<RawFrame>, s: bytes)
    requires AllSendable(fs)
    ensures ReadAll(Sent(fs) + s) == Transcript(Bodies(fs) + ReadAll(s).bodies, ReadAll(s).failure)
    decreases |fs|
  {
    if fs == [] {
      assert Sent(fs) + s == s;
    } else {
      assert fs[0] in fs;
      OneFrameFirst(fs[0], Sent(fs[1..]) + s);
      FramesComeFirst(fs[1..], s);
      Associate(Frame(fs[0].code, fs[0].payload), Sent(fs[1..]), s);
      Associate([Body(fs[0].code, fs[0].payload)], Bodies(fs[1..]), ReadAll(s).bodies);
    }
  }

  lemma Associate<T>(a: seq<T>, b: seq<T>, c: seq<T>)
    ensures (a + b) + c == a + (b + c)
  {
  }

  /** Whatever their types and payloads, frames sent one after another, and then fewer bytes
      than a header, are read back as exactly those frames and a clean end. */
  lemma StreamRoundTrip(fs: seq<RawFrame>, tail: bytes)
    requires AllSendable(fs) && |tail| < HEADER_LEN
    ensures ReadAll(Sent(fs) + tail) == Transcript(Bodies(fs), None)
  {
    FramesComeFirst(fs, tail);
  }

  /** And frames before a broken one are delivered, and its error ends the reading. */
  lemma BrokenFrameEnds(fs: seq<RawFrame>, s: bytes, e: WireError)
    requires AllSendable(fs) && ReadFrame(s) == Failed(e)
    ensures ReadAll(Sent(fs) + s) == Transcript(Bodies(fs), Some(e))
  {
    FramesComeFirst(fs, s);
  }

  /** Conversely, a stream that is read to a clean end is a sequence of frames and a tail
      shorter than a header, and nothing else: framing is unambiguous. */
  lemma {:induction false} StreamUnambiguous(s: bytes) returns (fs: seq<RawFrame>, tail: bytes)
    requires ReadAll(s).failure == None
    ensures AllSendable(fs) && |tail| < HEADER_LEN && s == Sent(fs) + tail
    ensures ReadAll(s).bodies == Bodies(fs)
    decreases |s|
  {
    match ReadFrame(s)
    case EndOfStream =>
      fs, tail := [], s;
    case Got(body, rest) =>
      var first := RawFrame(s[4], s[9..9 + FromLE(s[5..9])]);
      ReadFrameIff(s, first, rest);
      var more;
      more, tail := StreamUnambiguous(rest);
      fs := [first] + more;
      assert fs[1..] == more;
      assert s == Sent(fs) + tail;
  }

  // ---------------------------------------------------------------- the stream, in place

  /** A byte stream that is consumed from the front. */
  class ByteStream {
    var unread: bytes

    constructor (content: bytes)
      ensures unread == content
    {
      unread := content;
    }

    /** None on an early end; what was there is consumed all the same. */
    method ReadExact(n: nat) returns (r: Option<bytes>)
      modifies this
      ensures if n <= |old(unread)| then r == Some(old(unread)[..n]) && unread == old(unread)[n..]
              else r == None && unread == []
    {
      if n <= |unread| {
        r := Some(unread[..n]);
        unread := unread[n..];
      } else {
        r := None;
        unread := [];
      }
    }

    method WriteAll(s: bytes)
      modifies this
      ensures unread == old(unread) + s
    {
      unread := unread + s;
    }
  }

  /** `read_frame`: Ok(None) at the end of the stream. */
  method ReadFrameFrom(stream: ByteStream) returns (r: Result<Option<bytes>, WireError>)
    modifies stream
    ensures match ReadFrame(old(stream.unread))
            case EndOfStream => r == Ok(None)
            case Failed(e) => r == Err(e)
            case Got(body, rest) => r == Ok(Some(body)) && stream.unread == rest
  {
    ghost var s := stream.unread;
    var header := stream.ReadExact(HEADER_LEN);
    if header.None? {
      return Ok(None);
    }
    var h := header.value;
    assert h[..4] == s[..4] && h[5..9] == s[5..9];
    if FromBE(h[..4]) != SPMP_MAGIC {
      return Err(BadMagic);
    }
    var msgTypeByte := h[4];
    var length := FromLE(h[5..9]);
    if length > MAX_FRAME_SIZE {
      return Err(FrameTooLong);
    }
    var payload: bytes := [];
    if length > 0 {
      var read := stream.ReadExact(length);
      if read.None? {
        return Err(Truncated);
      }
      payload := read.value;
    }
    assert payload == s[9..9 + length] && stream.unread == s[9 + length..];
    MagicIff(h[..4]);
    var out: bytes := [];
    out := out + h[..4];
    out := out + [msgTypeByte];
    out := out + payload;
    assert msgTypeByte == s[4] && out == Body(s[4], s[9..9 + length]);
    r := Ok(Some(out));
  }
}
