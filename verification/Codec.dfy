/** The payloads that travel in frames: the client's tickets and the provider's parser for
    them, the provider's responses and the client's parser, and the opening handshake. */
module Codec {
  import opened Bytes
  import opened Abi
  import opened Frames

  // ------------------------------------------------------------------ tickets, client side

  /** The client's in-memory ticket, whose face value is 256 bits wide. */
  datatype TicketPayload = TicketPayload(
    channelId: Bytes32, provider: Address, nonce: u64, faceValue: u256,
    winProbNumerator: u32, winProbDenominator: u32, expiry: u64,
    clientSeed: Bytes32, providerCommitment: Bytes32)

  datatype SignedTicket = SignedTicket(payload: TicketPayload, signature: bytes)

  /** `try_into().unwrap_or_default()`: a face value that does not fit becomes zero. */
  function NarrowFace(v: u256): u128 {
    if v < TWO_128 then v else 0
  }

  function Narrow(p: TicketPayload): Ticket {
    Ticket(p.channelId, p.provider, p.nonce, NarrowFace(p.faceValue), p.winProbNumerator, p.winProbDenominator,
           p.expiry, p.clientSeed, p.providerCommitment)
  }

  /** A client ticket and a wire ticket with the same nine values. */
  ghost predicate SameFields(p: TicketPayload, t: Ticket)
  {
    && p.channelId == t.channelId && p.provider == t.provider && p.nonce == t.nonce
    && p.faceValue == t.faceValue
    && p.winProbNumerator == t.winProbNumerator && p.winProbDenominator == t.winProbDenominator
    && p.expiry == t.expiry && p.clientSeed == t.clientSeed && p.providerCommitment == t.providerCommitment
  }

  /** What the provider has after decoding. */
  datatype IncomingTicket = IncomingTicket(ticket: Ticket, signature: bytes, prompt: bytes)

  /** ticket || sig_len || signature || payload_len || prompt, lengths cut to 32 bits. */
  function TicketBytes(f: IncomingTicket): (s: bytes)
    ensures |s| == TICKET_ABI_LEN + 8 + |f.signature| + |f.prompt|
  {
    AbiEncode(f.ticket) + ToLE(|f.signature|, 4) + f.signature + ToLE(|f.prompt|, 4) + f.prompt
  }

  method EncodeTicketFrame(ticket: SignedTicket, prompt: bytes) returns (buf: bytes)
    ensures buf == Frame(Code(TicketRequest),
                         TicketBytes(IncomingTicket(Narrow(ticket.payload), ticket.signature, prompt)))
  {
    var ticketBytes := AbiEncode(Narrow(ticket.payload));
    var framePayload: bytes := [];
    framePayload := framePayload + ticketBytes;
    framePayload := framePayload + ToLE(|ticket.signature|, 4);
    framePayload := framePayload + ticket.signature;
    framePayload := framePayload + ToLE(|prompt|, 4);
    framePayload := framePayload + prompt;
    assert framePayload == TicketBytes(IncomingTicket(Narrow(ticket.payload), ticket.signature, prompt));
    buf := [];
    buf := buf + ToBE(SPMP_MAGIC, 4);
    buf := buf + [Code(TicketRequest)];
    buf := buf + ToLE(|framePayload|, 4);
    buf := buf + framePayload;
  }

  // ---------------------------------------------------------------- tickets, provider side

  /** A length-prefixed field at the front of s: the field and what follows it. */
  function TakeField(s: bytes): (r: Option<(bytes, bytes)>)
    ensures r.Some? ==> |r.value.0| + |r.value.1| + 4 == |s|
  {
    if |s| < 4 then None
    else if |s| - 4 < FromLE(s[..4]) then None
    else Some((s[4..4 + FromLE(s[..4])], s[4 + FromLE(s[..4])..]))
  }

  /** The source checks for the signature and the length after it at once; here the second
      field's check covers that length. Either way what is missing is reported as truncation. */
  function DecodePayload(payload: bytes): Result<IncomingTicket, WireError>
  {
    if |payload| < TICKET_ABI_LEN + 4 then Err(FrameTooShort)
    else
      match AbiDecode(payload[..TICKET_ABI_LEN])
      case None => Err(BadTicketAbi)
      case Some(ticket) =>
        match TakeField(payload[TICKET_ABI_LEN..])
        case None => Err(Truncated)
        case Some((signature, rest)) =>
          match TakeField(rest)
          case None => Err(Truncated)
          case Some((prompt, _)) => Ok(IncomingTicket(ticket, signature, prompt))
  }

  function DecodeTicketFrame(buf: bytes): Result<IncomingTicket, WireError>
  {
    match SplitFrame(buf)
    case Err(e) => Err(e)
    case Ok((m, payload)) => if m != TicketRequest then Err(UnexpectedMsgType) else DecodePayload(payload)
  }

  function Field(s: bytes): bytes {
    ToLE(|s|, 4) + s
  }

  lemma TakeFieldIff(s: bytes, field: bytes, rest: bytes)
    ensures TakeField(s) == Some((field, rest)) <==> |field| < TWO_32 && s == Field(field) + rest
  {
    PowerValues();
    if |field| < TWO_32 && s == Field(field) + rest {
      FromToLE(|field|, 4);
      assert s[..4] == ToLE(|field|, 4);
      assert s[4..4 + |field|] == field && s[4 + |field|..] == rest;
    }
    if TakeField(s) == Some((field, rest)) {
      ToFromLE(s[..4]);
      assert s == s[..4] + s[4..4 + |field|] + s[4 + |field|..];
    }
  }

  /** Whether the provider can parse the lengths back at all. */
  ghost predicate LengthsFit(f: IncomingTicket)
  {
    |f.signature| < TWO_32 && |f.prompt| < TWO_32
  }

  lemma DecodePayloadIff(payload: bytes, f: IncomingTicket)
    ensures DecodePayload(payload) == Ok(f) <==> LengthsFit(f) && TicketBytes(f) <= payload
  {
    if LengthsFit(f) && TicketBytes(f) <= payload {
      var trailing := payload[|TicketBytes(f)|..];
      assert payload == TicketBytes(f) + trailing;
      var afterSig := Field(f.prompt) + trailing;
      assert payload[..TICKET_ABI_LEN] == AbiEncode(f.ticket);
      assert payload[TICKET_ABI_LEN..] == Field(f.signature) + afterSig;
      AbiDecodeIff(payload[..TICKET_ABI_LEN], f.ticket);
      TakeFieldIff(payload[TICKET_ABI_LEN..], f.signature, afterSig);
      TakeFieldIff(afterSig, f.prompt, trailing);
    }
    if DecodePayload(payload) == Ok(f) {
      DecodedPrefix(payload, f);
    }
  }

  lemma DecodedPrefix(payload: bytes, f: IncomingTicket)
    requires DecodePayload(payload) == Ok(f)
    ensures LengthsFit(f) && TicketBytes(f) <= payload
  {
    var afterTicket := payload[TICKET_ABI_LEN..];
    var afterSig := TakeField(afterTicket).value.1;
    var trailing := TakeField(afterSig).value.1;
    AbiDecodeIff(payload[..TICKET_ABI_LEN], f.ticket);
    TakeFieldIff(afterTicket, f.signature, afterSig);
    TakeFieldIff(afterSig, f.prompt, trailing);
    assert payload == payload[..TICKET_ABI_LEN] + afterTicket;
    NestedPrefix(AbiEncode(f.ticket), Field(f.signature), Field(f.prompt), trailing, payload);
    TicketBytesFields(f);
  }

  lemma TicketBytesFields(f: IncomingTicket)
    ensures TicketBytes(f) == AbiEncode(f.ticket) + Field(f.signature) + Field(f.prompt)
  {
  }

  lemma NestedPrefix(a: bytes, b: bytes, c: bytes, d: bytes, s: bytes)
    requires s == a + (b + (c + d))
    ensures a + b + c <= s
  {
    assert s == a + b + c + d;
  }

  /** The parser is exactly the inverse of the printer: a buffer is accepted as f if and only
      if f's encoding, with strict ABI padding, is a prefix of it; trailing bytes are ignored. */
  lemma DecodeTicketFrameIff(buf: bytes, f: IncomingTicket)
    ensures DecodeTicketFrame(buf) == Ok(f)
            <==> LengthsFit(f) && Body(Code(TicketRequest), TicketBytes(f)) <= buf
  {
    if DecodeTicketFrame(buf) == Ok(f) {
      var payload := SplitFrame(buf).value.1;
      SplitFrameIff(buf, TicketRequest, payload);
      DecodePayloadIff(payload, f);
    }
    if LengthsFit(f) && Body(Code(TicketRequest), TicketBytes(f)) <= buf {
      var payload := buf[5..];
      assert buf == Body(Code(TicketRequest), payload);
      SplitFrameIff(buf, TicketRequest, payload);
      assert TicketBytes(f) == Body(Code(TicketRequest), TicketBytes(f))[5..] <= payload;
      DecodePayloadIff(payload, f);
    }
  }

  /** Where the parts of a ticket's payload stand. */
  lemma TicketBytesLayout(f: IncomingTicket)
    ensures var s, n := TicketBytes(f), |f.signature|;
            && s[..288] == AbiEncode(f.ticket)
            && s[288..292] == ToLE(n, 4) && s[292..292 + n] == f.signature
            && s[292 + n..296 + n] == ToLE(|f.prompt|, 4) && s[296 + n..] == f.prompt
  {
    var a, b, c := AbiEncode(f.ticket), Field(f.signature), Field(f.prompt);
    var s, n := TicketBytes(f), |f.signature|;
    TicketBytesFields(f);
    assert s == a + (b + c);
    assert s[..288] == a && s[288..] == b + c;
    assert s[288..292] == s[288..][..4] == b[..4];
    assert s[292..292 + n] == s[288..][4..4 + n] == b[4..];
    assert s[292 + n..] == s[288..][4 + n..] == c;
    assert s[292 + n..296 + n] == s[292 + n..][..4] == c[..4] && s[296 + n..] == s[292 + n..][4..] == c[4..];
  }

  /** Whether a payload begins with some ticket's strict encoding. */
  ghost predicate HasTicket(payload: bytes)
  {
    exists t :: AbiEncode(t) <= payload
  }

  lemma HasTicketIff(payload: bytes)
    requires |payload| >= TICKET_ABI_LEN
    ensures HasTicket(payload) <==> AbiDecode(payload[..TICKET_ABI_LEN]).Some?
  {
    if AbiDecode(payload[..TICKET_ABI_LEN]).Some? {
      var t := AbiDecode(payload[..TICKET_ABI_LEN]).value;
      AbiDecodeIff(payload[..TICKET_ABI_LEN], t);
      assert AbiEncode(t) <= payload;
    }
    forall t | AbiEncode(t) <= payload ensures AbiDecode(payload[..TICKET_ABI_LEN]).Some? {
      assert payload[..TICKET_ABI_LEN] == AbiEncode(t);
      AbiDecodeIff(payload[..TICKET_ABI_LEN], t);
    }
  }

  /** Why a ticket frame is not decoded: it does not split, or is of another type, or too short
      for a ticket and a length, or has no strictly encoded ticket, or else a length runs past
      its end. */
  lemma DecodeTicketFailsIff(buf: bytes, e: WireError)
    ensures DecodeTicketFrame(buf) == Err(e)
            <==> || SplitFrame(buf) == Err(e)
                 || (&& SplitFrame(buf).Ok?
                     && var (m, payload) := SplitFrame(buf).value;
                        match e
                        case UnexpectedMsgType => m != TicketRequest
                        case FrameTooShort => m == TicketRequest && |payload| < 292
                        case BadTicketAbi => m == TicketRequest && |payload| >= 292 && !HasTicket(payload)
                        case Truncated =>
                          && m == TicketRequest && |payload| >= 292 && HasTicket(payload)
                          && forall f :: !(LengthsFit(f) && TicketBytes(f) <= payload)
                        case _ => false)
  {
    if SplitFrame(buf).Ok? && |SplitFrame(buf).value.1| >= 292 {
      var payload := SplitFrame(buf).value.1;
      HasTicketIff(payload);
      forall f ensures DecodePayload(payload) == Ok(f) <==> LengthsFit(f) && TicketBytes(f) <= payload {
        DecodePayloadIff(payload, f);
      }
    }
  }

  /** The most that signature and prompt together may take up. */
  const MAX_VARIABLE := 65240

  /** A ticket sent by the client arrives at the provider: within the size limit the frame is
      read off the stream and decodes to the same signature, prompt and narrowed ticket; and
      the nine values are the client's own if and only if the face value fits 128 bits. */
  lemma TicketRoundTrip(ticket: SignedTicket, prompt: bytes, rest: bytes)
    requires |ticket.signature| + |prompt| <= MAX_VARIABLE
    ensures var f := IncomingTicket(Narrow(ticket.payload), ticket.signature, prompt);
            var body := Body(Code(TicketRequest), TicketBytes(f));
            && ReadFrame(Frame(Code(TicketRequest), TicketBytes(f)) + rest) == Got(body, rest)
            && DecodeTicketFrame(body) == Ok(f)
            && (SameFields(ticket.payload, f.ticket) <==> ticket.payload.faceValue < TWO_128)
            && (ticket.payload.faceValue >= TWO_128 ==> f.ticket.faceValue == 0)
  {
    var f := IncomingTicket(Narrow(ticket.payload), ticket.signature, prompt);
    var raw := RawFrame(Code(TicketRequest), TicketBytes(f));
    ReadFrameIff(Frame(raw.code, raw.payload) + rest, raw, rest);
    DecodeTicketFrameIff(Body(raw.code, raw.payload), f);
  }

  /** Anything larger, while the length still fits the field, is refused by its header. */
  lemma OversizeTicketRefused(ticket: SignedTicket, prompt: bytes, rest: bytes)
    requires MAX_VARIABLE < |ticket.signature| + |prompt| < TWO_32 - TICKET_ABI_LEN - 8
    ensures var f := IncomingTicket(Narrow(ticket.payload), ticket.signature, prompt);
            ReadFrame(Frame(Code(TicketRequest), TicketBytes(f)) + rest) == Failed(FrameTooLong)
  {
    var f := IncomingTicket(Narrow(ticket.payload), ticket.signature, prompt);
    OversizeRefused(RawFrame(Code(TicketRequest), TicketBytes(f)), rest);
  }

  // ----------------------------------------------------------------- the connection's loop

  function DecodeAll(bodies: seq<bytes>): (rs: seq<Result<IncomingTicket, WireError>>)
    ensures |rs| == |bodies|
  {
    seq(|bodies|, i requires 0 <= i < |bodies| => DecodeTicketFrame(bodies[i]))
  }

  /** The nonce of the last ticket that decoded, or what it was before. */
  ghost predicate FollowsDecoded(results: seq<Result<IncomingTicket, WireError>>, before: u64, now: u64)
  {
    && ((forall k | 0 <= k < |results| :: results[k].Err?) ==> now == before)
    && forall k | 0 <= k < |results| && results[k].Ok? && (forall m | k < m < |results| :: results[m].Err?) ::
         now == results[k].value.ticket.nonce
  }

  lemma DecodeOneMore(bodies: seq<bytes>, body: bytes)
    ensures DecodeAll(bodies + [body]) == DecodeAll(bodies) + [DecodeTicketFrame(body)]
  {
  }

  lemma FollowsOneMore(results: seq<Result<IncomingTicket, WireError>>, before: u64, now: u64,
                       decoded: Result<IncomingTicket, WireError>)
    requires FollowsDecoded(results, before, now)
    ensures FollowsDecoded(results + [decoded], before, if decoded.Ok? then decoded.value.ticket.nonce else now)
  {
    var all := results + [decoded];
    assert forall m | 0 <= m < |results| :: all[m] == results[m];
    assert all[|results|] == decoded;
  }

  /** The provider's connection loop: a frame that fails to decode is logged and skipped, and
      the loop goes on with the next one; only framing errors end the connection. Its own
      watermark follows every decoded ticket, before any gatekeeper has seen it. */
  method ServeConnection(stream: ByteStream, lastNonce: u64)
    returns (results: seq<Result<IncomingTicket, WireError>>, watermark: u64, failure: Option<WireError>)
    modifies stream
    ensures var t := ReadAll(old(stream.unread));
            results == DecodeAll(t.bodies) && failure == t.failure
    ensures FollowsDecoded(results, lastNonce, watermark)
  {
    results, watermark := [], lastNonce;
    ghost var t := ReadAll(stream.unread);
    ghost var bodies := [];
    while true
      invariant t.bodies == bodies + ReadAll(stream.unread).bodies
      invariant t.failure == ReadAll(stream.unread).failure
      invariant results == DecodeAll(bodies)
      invariant FollowsDecoded(results, lastNonce, watermark)
      decreases |stream.unread|
    {
      ghost var before := stream.unread;
      var frame := ReadFrameFrom(stream);
      if frame.Err? {
        assert t.bodies == bodies;
        return results, watermark, Some(frame.error);
      }
      if frame.value.None? {
        assert t.bodies == bodies;
        return results, watermark, None;
      }
      ghost var grown := bodies + [frame.value.value];
      assert ReadAll(before).bodies == [frame.value.value] + ReadAll(stream.unread).bodies;
      assert t.bodies == grown + ReadAll(stream.unread).bodies;
      var decoded := DecodeTicketFrame(frame.value.value);
      FollowsOneMore(results, lastNonce, watermark, decoded);
      DecodeOneMore(bodies, frame.value.value);
      if decoded.Ok? {
        watermark := decoded.value.ticket.nonce;
      }
      results := results + [decoded];
      bodies := grown;
    }
  }

  /** An undecodable frame never shifts a later boundary: the i-th result depends on the i-th
      frame alone, whatever the others hold. */
  lemma BadFrameIsIsolated(fs: seq<RawFrame>, tail: bytes)
    requires AllSendable(fs) && |tail| < HEADER_LEN
    ensures var t := ReadAll(Sent(fs) + tail);
            && t.failure == None && |DecodeAll(t.bodies)| == |fs|
            && forall i | 0 <= i < |fs| :: DecodeAll(t.bodies)[i] == DecodeTicketFrame(Body(fs[i].code, fs[i].payload))
  {
    StreamRoundTrip(fs, tail);
    forall i | 0 <= i < |fs| ensures Bodies(fs)[i] == Body(fs[i].code, fs[i].payload) {
      BodiesAt(fs, i);
    }
  }

  lemma {:induction false} BodiesAt(fs: seq<RawFrame>, i: nat)
    requires i < |fs|
    ensures Bodies(fs)[i] == Body(fs[i].code, fs[i].payload)
  {
    if i > 0 {
      BodiesAt(fs[1..], i - 1);
    }
  }

  // ------------------------------------------------------------------------- responses

  /** The response's payload: the flag byte and the text's bytes. */
  function ResponseBytes(flag: byte, text: bytes): bytes {
    [flag] + text
  }

  method EncodeResponseFrame(tokenChunk: bytes, isFinished: bool) returns (frame: bytes)
    ensures frame == Frame(Code(ComputeResp), ResponseBytes(if isFinished then 1 else 0, tokenChunk))
  {
    var payload: bytes := [];
    payload := payload + [if isFinished then 1 else 0];
    payload := payload + tokenChunk;
    frame := BuildFrame(ComputeResp, payload);
  }

  /** The client's parser; `utf8` says which byte strings are text. Any non-zero flag byte
      reads as finished. */
  function DecodeResponseFrame(utf8: bytes -> bool, buf: bytes): Result<(bytes, bool), WireError>
  {
    if |buf| < 10 then Err(FrameTooShort)
    else if FromBE(buf[..4]) != SPMP_MAGIC then Err(BadMagic)
    else if buf[4] != Code(ComputeResp) then Err(UnexpectedMsgType)
    else
      var length := FromLE(buf[5..9]);
      if |buf| < 9 + length then Err(Truncated)
      else if length == 0 then Err(EmptyPayload)
      else if !utf8(buf[10..9 + length]) then Err(InvalidUtf8)
      else Ok((buf[10..9 + length], buf[9] != 0))
  }

  /** A response is accepted exactly when it starts with a frame of that text under some flag
      byte of that truth value; the text is never cut or extended. */
  lemma DecodeResponseIff(utf8: bytes -> bool, buf: bytes, text: bytes, isDone: bool)
    ensures DecodeResponseFrame(utf8, buf) == Ok((text, isDone))
            <==> utf8(text) && |text| + 1 < TWO_32
                 && exists flag: byte ::
                      (flag != 0) == isDone && Frame(Code(ComputeResp), ResponseBytes(flag, text)) <= buf
  {
    if DecodeResponseFrame(utf8, buf) == Ok((text, isDone)) {
      ResponsePrefix(utf8, buf, text, isDone);
    }
    if utf8(text) && |text| + 1 < TWO_32 {
      forall flag: byte | (flag != 0) == isDone && Frame(Code(ComputeResp), ResponseBytes(flag, text)) <= buf
        ensures DecodeResponseFrame(utf8, buf) == Ok((text, isDone))
      {
        ResponseAccepted(utf8, buf, flag, text);
      }
    }
  }

  lemma ResponsePrefix(utf8: bytes -> bool, buf: bytes, text: bytes, isDone: bool)
    requires DecodeResponseFrame(utf8, buf) == Ok((text, isDone))
    ensures utf8(text) && |text| + 1 < TWO_32
    ensures (buf[9] != 0) == isDone && Frame(Code(ComputeResp), ResponseBytes(buf[9], text)) <= buf
  {
    PowerValues();
    MagicIff(buf[..4]);
    ToFromLE(buf[5..9]);
    var n := FromLE(buf[5..9]);
    FrameOf(buf, n);
    assert ResponseBytes(buf[9], text) == buf[9..9 + n];
  }

  lemma ResponseAccepted(utf8: bytes -> bool, buf: bytes, flag: byte, text: bytes)
    requires utf8(text) && |text| + 1 < TWO_32 && Frame(Code(ComputeResp), ResponseBytes(flag, text)) <= buf
    ensures DecodeResponseFrame(utf8, buf) == Ok((text, flag != 0))
  {
    PowerValues();
    var raw := RawFrame(Code(ComputeResp), ResponseBytes(flag, text));
    var rest := buf[|Frame(raw.code, raw.payload)|..];
    assert buf == Frame(raw.code, raw.payload) + rest;
    FrameParts(raw, rest);
    MagicIff(buf[..4]);
    FromToLE(|raw.payload|, 4);
    assert buf[9..9 + |raw.payload|] == raw.payload;
    assert buf[9] == raw.payload[0] && buf[10..9 + |raw.payload|] == raw.payload[1..] == text;
  }

  /** Why a response is not accepted. */
  lemma DecodeResponseFailsIff(utf8: bytes -> bool, buf: bytes, e: WireError)
    ensures DecodeResponseFrame(utf8, buf) == Err(e)
            <==> match e
                 case FrameTooShort => |buf| < 10
                 case BadMagic => |buf| >= 10 && buf[..4] != MAGIC_BYTES
                 case UnexpectedMsgType => |buf| >= 10 && buf[..4] == MAGIC_BYTES && buf[4] != 0x04
                 case Truncated => OpensResponse(buf) && |buf| < 9 + FromLE(buf[5..9])
                 case EmptyPayload => OpensResponse(buf) && buf[5..9] == [0, 0, 0, 0]
                 case InvalidUtf8 =>
                   && OpensResponse(buf) && 9 < 9 + FromLE(buf[5..9]) <= |buf|
                   && !utf8(buf[10..9 + FromLE(buf[5..9])])
                 case _ => false
  {
    if |buf| >= 10 {
      MagicIff(buf[..4]);
      ZeroLength(buf[5..9]);
    }
  }

  /** A response's header, and at least one more byte. */
  predicate OpensResponse(buf: bytes)
  {
    |buf| >= 10 && buf[..4] == MAGIC_BYTES && buf[4] == 0x04
  }

  lemma ZeroLength(s: bytes)
    requires |s| == 4
    ensures FromLE(s) == 0 <==> s == [0, 0, 0, 0]
  {
    PowerValues();
    assert ToLE(0, 4) == [0, 0, 0, 0];
    FromToLE(0, 4);
    ToFromLE(s);
  }

  /** What the provider encodes, the client reads back, text and flag, with any bytes after. */
  lemma ResponseRoundTrip(utf8: bytes -> bool, text: bytes, isFinished: bool, rest: bytes)
    requires utf8(text) && |text| + 1 < TWO_32
    ensures DecodeResponseFrame(utf8, Frame(Code(ComputeResp), ResponseBytes(if isFinished then 1 else 0, text)) + rest)
            == Ok((text, isFinished))
  {
    ResponseAccepted(utf8, Frame(Code(ComputeResp), ResponseBytes(if isFinished then 1 else 0, text)) + rest,
                     if isFinished then 1 else 0, text);
  }

  // ------------------------------------------------------------------------- handshake

  datatype SessionConfig = SessionConfig(channelId: Bytes32, client: Address, providerSeed: Bytes32,
                                         providerCommitment: Bytes32, lastNonce: u64)

  /** The provider opens with its commitment. */
  method SendInit(commitment: Bytes32, outbound: ByteStream)
    modifies outbound
    ensures outbound.unread == old(outbound.unread) + Frame(Code(HandshakeInit), commitment)
  {
    var frame := BuildFrame(HandshakeInit, commitment);
    outbound.WriteAll(frame);
  }

  /** The provider awaits the acknowledgement and captures the session. */
  method AwaitAck(seed: Bytes32, commitment: Bytes32, inbound: ByteStream) returns (r: Result<SessionConfig, WireError>)
    modifies inbound
    ensures r == AckSession(seed, commitment, old(inbound.unread))
    ensures r.Ok? ==> old(inbound.unread)
                      == Frame(Code(HandshakeAck), r.value.channelId + r.value.client) + inbound.unread
  {
    ghost var s := inbound.unread;
    var frame := ReadFrameFrom(inbound);
    if frame.Err? {
      return Err(frame.error);
    }
    if frame.value.None? {
      return Err(Truncated);
    }
    match SplitFrame(frame.value.value) {
      case Err(e) => return Err(e);
      case Ok((m, payload)) =>
        if m != HandshakeAck {
          return Err(UnexpectedMsgType);
        }
        if |payload| != 52 {
          return Err(BadAckLength);
        }
        r := Ok(SessionConfig(payload[..32], payload[32..], seed, commitment, 0));
        assert payload == r.value.channelId + r.value.client;
        SplitFrameIff(frame.value.value, HandshakeAck, payload);
        ReadFrameIff(s, RawFrame(Code(HandshakeAck), payload), inbound.unread);
    }
  }

  function AckSession(seed: Bytes32, commitment: Bytes32, inbound: bytes): Result<SessionConfig, WireError>
  {
    match ReadFrame(inbound)
    case EndOfStream => Err(Truncated)
    case Failed(e) => Err(e)
    case Got(body, _) =>
      match SplitFrame(body)
      case Err(e) => Err(e)
      case Ok((m, payload)) =>
        if m != HandshakeAck then Err(UnexpectedMsgType)
        else if |payload| != 52 then Err(BadAckLength)
        else Ok(SessionConfig(payload[..32], payload[32..], seed, commitment, 0))
  }

  /** A session is captured exactly from an acknowledgement frame at the front of the stream,
      for the channel and the address that it names. */
  lemma AckSessionIff(seed: Bytes32, commitment: Bytes32, inbound: bytes, session: SessionConfig)
    ensures AckSession(seed, commitment, inbound) == Ok(session)
            <==> && session == SessionConfig(session.channelId, session.client, seed, commitment, 0)
                 && Frame(Code(HandshakeAck), session.channelId + session.client) <= inbound
  {
    var payload := session.channelId + session.client;
    var frame := Frame(Code(HandshakeAck), payload);
    if frame <= inbound {
      var rest := inbound[|frame|..];
      assert inbound == frame + rest;
      ReadFrameIff(inbound, RawFrame(Code(HandshakeAck), payload), rest);
      SplitFrameIff(Body(Code(HandshakeAck), payload), HandshakeAck, payload);
      assert payload[..32] == session.channelId && payload[32..] == session.client;
    }
    if AckSession(seed, commitment, inbound) == Ok(session) {
      AckFrame(seed, commitment, inbound);
    }
  }

  lemma AckFrame(seed: Bytes32, commitment: Bytes32, inbound: bytes)
    requires AckSession(seed, commitment, inbound).Ok?
    ensures var session := AckSession(seed, commitment, inbound).value;
            Frame(Code(HandshakeAck), session.channelId + session.client) <= inbound
  {
    var read := ReadFrame(inbound);
    var payload := SplitFrame(read.body).value.1;
    SplitFrameIff(read.body, HandshakeAck, payload);
    ReadFrameIff(inbound, RawFrame(Code(HandshakeAck), payload), read.rest);
    assert payload[..32] + payload[32..] == payload;
  }

  /** Why no session is captured. */
  lemma AckFailsIff(seed: Bytes32, commitment: Bytes32, inbound: bytes, e: WireError)
    ensures AckSession(seed, commitment, inbound) == Err(e)
            <==> match ReadFrame(inbound)
                 case EndOfStream => e == Truncated
                 case Failed(error) => e == error
                 case Got(body, _) =>
                   || SplitFrame(body) == Err(e)
                   || (&& SplitFrame(body).Ok?
                       && if SplitFrame(body).value.0 != HandshakeAck then e == UnexpectedMsgType
                          else |SplitFrame(body).value.1| != 52 && e == BadAckLength)
  {
  }

  class TCPClient {
    var providerCommitment: Bytes32

    constructor ()
      ensures providerCommitment == Zeros(32)
    {
      providerCommitment := Zeros(32);
    }

    /** Reads the commitment and answers with the channel and the client's address. The length
        field of the opening frame is not looked at: 32 bytes are read regardless. */
    method PerformHandshake(channelId: Bytes32, clientAddress: Address, inbound: ByteStream, outbound: ByteStream)
      returns (failure: Option<WireError>)
      requires inbound != outbound
      modifies this, inbound, outbound
      ensures var s := old(inbound.unread);
              if |s| >= 41 && FromBE(s[..4]) == SPMP_MAGIC && s[4] == Code(HandshakeInit) then
                && failure == None && providerCommitment == s[9..41] && inbound.unread == s[41..]
                && outbound.unread == old(outbound.unread) + Frame(Code(HandshakeAck), channelId + clientAddress)
              else
                && providerCommitment == old(providerCommitment) && outbound.unread == old(outbound.unread)
                && failure == Some(if |s| < 9 then Truncated
                                   else if FromBE(s[..4]) != SPMP_MAGIC then BadMagic
                                   else if s[4] != Code(HandshakeInit) then UnexpectedMsgType
                                   else Truncated)
    {
      ghost var s := inbound.unread;
      var header := inbound.ReadExact(HEADER_LEN);
      if header.None? {
        return Some(Truncated);
      }
      var h := header.value;
      assert h[..4] == s[..4] && h[4] == s[4];
      if FromBE(h[..4]) != SPMP_MAGIC {
        return Some(BadMagic);
      }
      if h[4] != Code(HandshakeInit) {
        return Some(UnexpectedMsgType);
      }
      var commitment := inbound.ReadExact(32);
      if commitment.None? {
        return Some(Truncated);
      }
      assert commitment.value == s[9..41] && inbound.unread == s[41..];
      providerCommitment := commitment.value;
      var ackPayload: bytes := [];
      ackPayload := ackPayload + channelId;
      ackPayload := ackPayload + clientAddress;
      var ackFrame: bytes := [];
      ackFrame := ackFrame + ToBE(SPMP_MAGIC, 4);
      ackFrame := ackFrame + [Code(HandshakeAck)];
      ackFrame := ackFrame + ToLE(|ackPayload|, 4);
      ackFrame := ackFrame + ackPayload;
      assert ackFrame == Frame(Code(HandshakeAck), channelId + clientAddress);
      outbound.WriteAll(ackFrame);
      failure := None;
    }
  }

  /** What the client reads of an opening frame, whatever length it declares. */
  lemma OpeningParts(length: nat, commitment: Bytes32, rest: bytes)
    ensures var s := Header(Code(HandshakeInit), length) + commitment + rest;
            && |s| >= 41 && FromBE(s[..4]) == SPMP_MAGIC && s[4] == Code(HandshakeInit)
            && s[9..41] == commitment && s[41..] == rest
  {
    MagicIff(MAGIC_BYTES);
    var s, h := Header(Code(HandshakeInit), length) + commitment + rest, Header(Code(HandshakeInit), length);
    assert s[..9] == h && s[4] == h[4];
    assert s[..4] == s[..9][..4] == h[..4] == MAGIC_BYTES;
  }

  /** Both sides of a whole handshake over two pipes end up with the same session: the client
      holds the provider's commitment, the provider the client's channel and address. */
  method Handshake(client: TCPClient, seed: Bytes32, commitment: Bytes32, channelId: Bytes32, clientAddress: Address)
    returns (session: Result<SessionConfig, WireError>)
    modifies client
    ensures client.providerCommitment == commitment
    ensures session == Ok(SessionConfig(channelId, clientAddress, seed, commitment, 0))
  {
    var toClient := new ByteStream([]);
    var toProvider := new ByteStream([]);
    SendInit(commitment, toClient);
    OpeningParts(32, commitment, []);
    assert toClient.unread == Header(Code(HandshakeInit), 32) + commitment + [];
    var failure := client.PerformHandshake(channelId, clientAddress, toClient, toProvider);
    AckRoundTrip(seed, commitment, channelId, clientAddress);
    assert toProvider.unread == Frame(Code(HandshakeAck), channelId + clientAddress);
    session := AwaitAck(seed, commitment, toProvider);
  }

  lemma AckRoundTrip(seed: Bytes32, commitment: Bytes32, channelId: Bytes32, clientAddress: Address)
    ensures AckSession(seed, commitment, Frame(Code(HandshakeAck), channelId + clientAddress))
            == Ok(SessionConfig(channelId, clientAddress, seed, commitment, 0))
  {
    AckSessionIff(seed, commitment, Frame(Code(HandshakeAck), channelId + clientAddress),
                  SessionConfig(channelId, clientAddress, seed, commitment, 0));
  }
}
