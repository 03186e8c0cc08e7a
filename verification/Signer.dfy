/** The client's signer: one atomic nonce counter shared by any number of concurrent calls,
    and the tickets that come out of them. */
module Signer {
  import opened Bytes
  import opened Abi
  import opened Eip712
  import opened Verifier
  import opened Frames
  import opened Codec

  datatype PricingConfig = PricingConfig(faceValue: u256, winProbNumerator: u32, winProbDenominator: u32,
                                         expiryDuration: u64)

  /** Whether plain additions that overflow abort or wrap; the atomic counter always wraps. */
  datatype Build = Debug | Release

  datatype SignError = NonceOverflow | ClockBeforeEpoch | ExpiryOverflow | FaceValueTooWide | SigningFailed

  /** What a signer is set up with. */
  datatype Identity = Identity(oracle: Oracle, separator: Bytes32, channelId: Bytes32, provider: Address, build: Build)

  /** What one call is given (the provider's commitment and the pricing) and what it draws and
      reads: the client's seed, the clock, and the key's answer, None where signing fails. */
  datatype Request = Request(commitment: Bytes32, pricing: PricingConfig, clientSeed: Bytes32, now: Option<u64>,
                             key: Bytes32 -> Option<bytes>)

  // --------------------------------------------------------------------------- one call

  class TicketSigner {
    const oracle: Oracle
    const clientAddress: Address
    const channelId: Bytes32
    const providerAddress: Address
    const separator: Bytes32
    const build: Build
    var nonceWatermark: u64

    constructor (oracle: Oracle, clientAddress: Address, channelId: Bytes32, providerAddress: Address,
                 contractAddress: Address, chainId: u64, build: Build)
      ensures this.oracle == oracle && this.clientAddress == clientAddress && this.build == build
      ensures this.channelId == channelId && this.providerAddress == providerAddress
      ensures separator == DomainSeparator(oracle, chainId, contractAddress) && nonceWatermark == 0
    {
      this.oracle := oracle;
      this.clientAddress := clientAddress;
      this.channelId := channelId;
      this.providerAddress := providerAddress;
      this.separator := DomainSeparator(oracle, chainId, contractAddress);
      this.build := build;
      this.nonceWatermark := 0;
    }

    /** One call from start to end. The counter advances first, and stays advanced when a later
        step fails. */
    method SignNextTicket(request: Request) returns (r: Result<SignedTicket, SignError>)
      modifies this
      ensures nonceWatermark == NextNonce(old(nonceWatermark))
      ensures r == SignTicket(Identity(oracle, separator, channelId, providerAddress, build), old(nonceWatermark),
                              request)
    {
      var fetched := nonceWatermark;
      nonceWatermark := NextNonce(nonceWatermark);
      if build.Debug? && fetched + 1 >= TWO_64 {
        return Err(NonceOverflow);
      }
      var nonce := (fetched + 1) % TWO_64;
      if request.now.None? {
        return Err(ClockBeforeEpoch);
      }
      var pricing := request.pricing;
      if build.Debug? && request.now.value + pricing.expiryDuration >= TWO_64 {
        return Err(ExpiryOverflow);
      }
      var expiry := (request.now.value + pricing.expiryDuration) % TWO_64;
      if pricing.faceValue >= TWO_128 {
        return Err(FaceValueTooWide);
      }
      var solTicket := Ticket(channelId, providerAddress, nonce, pricing.faceValue, pricing.winProbNumerator,
                              pricing.winProbDenominator, expiry, request.clientSeed, request.commitment);
      ghost var me := Identity(oracle, separator, channelId, providerAddress, build);
      assert solTicket == Narrow(PayloadOf(me, fetched, request));
      DigestsAgree(oracle, separator, solTicket);
      var signature := request.key(SigningHash(oracle, separator, solTicket));
      if signature.None? {
        return Err(SigningFailed);
      }
      var payload := TicketPayload(channelId, providerAddress, nonce, pricing.faceValue, pricing.winProbNumerator,
                                   pricing.winProbDenominator, expiry, request.clientSeed, request.commitment);
      assert payload == PayloadOf(me, fetched, request);
      r := Ok(SignedTicket(payload, signature.value));
    }
  }

  /** What the atomic counter holds after one more call. */
  function NextNonce(watermark: u64): u64 {
    (watermark + 1) % TWO_64
  }

  /** The ticket of a call that fetched this watermark. */
  function PayloadOf(me: Identity, watermark: u64, request: Request): TicketPayload
    requires request.now.Some?
  {
    var pricing := request.pricing;
    TicketPayload(me.channelId, me.provider, NextNonce(watermark), pricing.faceValue, pricing.winProbNumerator,
                  pricing.winProbDenominator, (request.now.value + pricing.expiryDuration) % TWO_64,
                  request.clientSeed, request.commitment)
  }

  /** What a call needs to return a ticket: a readable clock, no overflow where those abort, a
      face value of at most 128 bits, and a key that signs the contract's digest. */
  predicate CanSign(me: Identity, watermark: u64, request: Request)
  {
    && request.now.Some?
    && (me.build.Debug? ==> watermark + 1 < TWO_64 && request.now.value + request.pricing.expiryDuration < TWO_64)
    && request.pricing.faceValue < TWO_128
    && request.key(ChainDigest(me.oracle, me.separator, Narrow(PayloadOf(me, watermark, request)))).Some?
  }

  /** What a call returns that fetched this watermark. */
  function SignTicket(me: Identity, watermark: u64, request: Request): (r: Result<SignedTicket, SignError>)
    ensures r.Ok? <==> CanSign(me, watermark, request)
    ensures r.Ok? ==> r.value.payload == PayloadOf(me, watermark, request)
                      && request.key(ChainDigest(me.oracle, me.separator, Narrow(r.value.payload)))
                         == Some(r.value.signature)
  {
    if me.build.Debug? && watermark + 1 >= TWO_64 then Err(NonceOverflow)
    else if request.now.None? then Err(ClockBeforeEpoch)
    else if me.build.Debug? && request.now.value + request.pricing.expiryDuration >= TWO_64 then Err(ExpiryOverflow)
    else if request.pricing.faceValue >= TWO_128 then Err(FaceValueTooWide)
    else
      var payload := PayloadOf(me, watermark, request);
      match request.key(ChainDigest(me.oracle, me.separator, Narrow(payload)))
      case None => Err(SigningFailed)
      case Some(signature) => Ok(SignedTicket(payload, signature))
  }

  /** Every returned ticket carries what the call was given, drew and read. */
  lemma TicketIsAsRequested(me: Identity, fetched: u64, request: Request)
    requires SignTicket(me, fetched, request).Ok?
    ensures var s := SignTicket(me, fetched, request).value;
            var p := s.payload;
            && p.channelId == me.channelId && p.provider == me.provider
            && (fetched + 1 < TWO_64 ==> p.nonce == fetched + 1)
            && p.faceValue == request.pricing.faceValue
            && p.winProbNumerator == request.pricing.winProbNumerator
            && p.winProbDenominator == request.pricing.winProbDenominator
            && (request.now.value + request.pricing.expiryDuration < TWO_64 ==>
                  p.expiry == request.now.value + request.pricing.expiryDuration)
            && p.clientSeed == request.clientSeed && p.providerCommitment == request.commitment
            && SameFields(p, Narrow(p))
  {
  }

  /** And the key's signature on its signing hash. */
  lemma TicketIsSigned(me: Identity, fetched: u64, request: Request)
    requires SignTicket(me, fetched, request).Ok?
    ensures var s := SignTicket(me, fetched, request).value;
            request.key(SigningHash(me.oracle, me.separator, Narrow(s.payload))) == Some(s.signature)
  {
    DigestsAgree(me.oracle, me.separator, Narrow(SignTicket(me, fetched, request).value.payload));
  }

  /** What an error of a call says. */
  predicate SignFault(me: Identity, fetched: u64, request: Request, e: SignError)
  {
    match e
    case NonceOverflow => me.build.Debug? && fetched == TWO_64 - 1
    case ClockBeforeEpoch => request.now == None
    case ExpiryOverflow =>
      me.build.Debug? && request.now.Some? && request.pricing.expiryDuration >= TWO_64 - request.now.value
    case FaceValueTooWide => request.pricing.faceValue > TWO_128 - 1
    case SigningFailed =>
      && request.now.Some?
      && request.key(ChainDigest(me.oracle, me.separator, Narrow(PayloadOf(me, fetched, request)))) == None
  }

  const SIGN_CHECKS: seq<SignError> :=
    [NonceOverflow, ClockBeforeEpoch, ExpiryOverflow, FaceValueTooWide, SigningFailed]

  /** A failed call gives the first thing that is wrong. */
  lemma SignErrorIsFirstFault(me: Identity, fetched: u64, request: Request, i: nat)
    requires i < |SIGN_CHECKS|
    ensures SignTicket(me, fetched, request) == Err(SIGN_CHECKS[i])
            <==> && SignFault(me, fetched, request, SIGN_CHECKS[i])
                 && forall j | 0 <= j < i :: !SignFault(me, fetched, request, SIGN_CHECKS[j])
  {
    assert SIGN_CHECKS[0] == NonceOverflow && SIGN_CHECKS[1] == ClockBeforeEpoch && SIGN_CHECKS[2] == ExpiryOverflow
        && SIGN_CHECKS[3] == FaceValueTooWide;
  }

  /** From the client's key to the provider's gate: a ticket signed for the commitment that the
      provider holds, sent with any prompt that fits a frame, is read and decoded by the
      provider as the client's nine values, and passes every check of the gatekeeper if it
      carries the next nonce and arrives before it expires. */
  lemma SignedTicketReachesGate(me: Identity, watermark: u64, request: Request, prompt: bytes, rest: bytes,
                                gate: SeedState, client: Address, arrival: u64)
    requires forall digest: Bytes32 :: request.key(digest).Some? ==>
                                         SignedBy(me.oracle, digest, request.key(digest).value, client)
    requires request.commitment == gate.commitment && watermark + 1 < TWO_64
    requires var r := SignTicket(me, watermark, request);
             r.Ok? && |r.value.signature| + |prompt| <= MAX_VARIABLE && arrival < r.value.payload.expiry
    ensures var s := SignTicket(me, watermark, request).value;
            var sent := IncomingTicket(Narrow(s.payload), s.signature, prompt);
            var body := Body(Code(TicketRequest), TicketBytes(sent));
            && SameFields(PayloadOf(me, watermark, request), sent.ticket)
            && ReadFrame(Frame(Code(TicketRequest), TicketBytes(sent)) + rest) == Got(body, rest)
            && DecodeTicketFrame(body) == Ok(sent)
            && Verdict(me.oracle, me.separator, gate, sent.ticket, sent.signature, client, watermark, Some(arrival))
               == if Winning(me.oracle, me.separator, gate.seed, sent.ticket) then ValidWinning else ValidLosing
  {
    TicketRoundTrip(SignTicket(me, watermark, request).value, prompt, rest);
    SignedTicketPasses(me, watermark, request, gate, client, arrival);
  }

  lemma SignedTicketPasses(me: Identity, watermark: u64, request: Request, gate: SeedState, client: Address,
                           arrival: u64)
    requires forall digest: Bytes32 :: request.key(digest).Some? ==>
                                         SignedBy(me.oracle, digest, request.key(digest).value, client)
    requires request.commitment == gate.commitment && watermark + 1 < TWO_64
    requires var r := SignTicket(me, watermark, request);
             r.Ok? && arrival < r.value.payload.expiry
    ensures var s := SignTicket(me, watermark, request).value;
            Verdict(me.oracle, me.separator, gate, Narrow(s.payload), s.signature, client, watermark, Some(arrival))
            == if Winning(me.oracle, me.separator, gate.seed, Narrow(s.payload)) then ValidWinning else ValidLosing
  {
    var s := SignTicket(me, watermark, request).value;
    assert request.key(ChainDigest(me.oracle, me.separator, Narrow(s.payload))) == Some(s.signature);
    AuthenticIsJudgedByDraw(me.oracle, me.separator, gate, Narrow(s.payload), s.signature, client, watermark,
                            Some(arrival));
  }

  lemma AuthenticIsJudgedByDraw(o: Oracle, separator: Bytes32, gate: SeedState, t: Ticket, signature: bytes,
                                client: Address, lastNonce: u64, now: Option<u64>)
    requires Authentic(o, separator, gate.commitment, t, signature, client, lastNonce, now)
    ensures Verdict(o, separator, gate, t, signature, client, lastNonce, now)
            == if Winning(o, separator, gate.seed, t) then ValidWinning else ValidLosing
  {
  }

  // ------------------------------------------------------------------- concurrent calls

  /** A call after its atomic increment, with the watermark it fetched: still at work, or ended
      with a ticket or an error. */
  datatype Phase =
    | Working(fetched: u64)
    | Returned(fetched: u64, ticket: SignedTicket)
    | Abandoned(fetched: u64, error: SignError)
  {
    function Nonce(): u64 {
      NextNonce(fetched)
    }
  }

  /** The counter and every call that has taken a nonce from it. */
  datatype Pool = Pool(watermark: u64, calls: map<nat, Phase>)

  const EMPTY_POOL := Pool(0, map[])

  /** The atomic steps of the calls, in any interleaving. */
  datatype Action = Allocate(caller: nat) | Complete(caller: nat, request: Request)

  /** How a call ends that fetched this watermark. */
  function Ended(me: Identity, fetched: u64, request: Request): Phase
  {
    match SignTicket(me, fetched, request)
    case Ok(ticket) => Returned(fetched, ticket)
    case Err(error) => Abandoned(fetched, error)
  }

  /** A call takes one nonce, once, and ends once; anything else is not a step. */
  function Act(me: Identity, p: Pool, a: Action): Pool
  {
    match a
    case Allocate(c) =>
      if c in p.calls then p
      else Pool(NextNonce(p.watermark), p.calls[c := Working(p.watermark)])
    case Complete(c, request) =>
      if c in p.calls && p.calls[c].Working?
      then p.(calls := p.calls[c := Ended(me, p.calls[c].fetched, request)])
      else p
  }

  function ActAll(me: Identity, actions: seq<Action>): Pool
  {
    if actions == [] then EMPTY_POOL else Act(me, ActAll(me, actions[..|actions| - 1]), actions[|actions| - 1])
  }

  ghost predicate Holds(p: Pool, c: nat, n: int)
  {
    c in p.calls && p.calls[c].Nonce() == n
  }

  ghost predicate HandedOut(p: Pool, n: int)
  {
    exists c :: Holds(p, c, n)
  }

  /** The nonces handed out are exactly 1 to the watermark, each to one call. */
  ghost predicate NoncesExact(p: Pool)
  {
    && p.watermark == |p.calls|
    && (forall c, n | Holds(p, c, n) :: 1 <= n <= p.watermark)
    && (forall c, d, n | Holds(p, c, n) && Holds(p, d, n) :: c == d)
    && (forall n | 1 <= n <= p.watermark :: HandedOut(p, n))
  }

  lemma AllocateKeepsExact(me: Identity, p: Pool, c: nat)
    requires NoncesExact(p) && c !in p.calls && |p.calls| + 1 < TWO_64
    ensures NoncesExact(Act(me, p, Allocate(c)))
  {
    var p' := Act(me, p, Allocate(c));
    assert p'.calls.Keys == p.calls.Keys + {c} && |p'.calls.Keys| == |p'.calls|;
    forall d, n ensures Holds(p', d, n) <==> (d == c && n == p.watermark + 1) || Holds(p, d, n) {
    }
    forall n | 1 <= n <= p'.watermark ensures HandedOut(p', n) {
      if n == p'.watermark {
        assert Holds(p', c, n);
      } else {
        assert HandedOut(p, n);
        var d :| Holds(p, d, n);
        assert Holds(p', d, n);
      }
    }
  }

  lemma CompleteKeepsExact(me: Identity, p: Pool, c: nat, request: Request)
    requires NoncesExact(p)
    ensures NoncesExact(Act(me, p, Complete(c, request)))
  {
    var p' := Act(me, p, Complete(c, request));
    assert p'.calls.Keys == p.calls.Keys && |p'.calls.Keys| == |p'.calls| && |p.calls.Keys| == |p.calls|;
    forall d, n ensures Holds(p', d, n) <==> Holds(p, d, n) {
    }
    forall n | 1 <= n <= p'.watermark ensures HandedOut(p', n) {
      assert HandedOut(p, n);
      var d :| Holds(p, d, n);
      assert Holds(p', d, n);
    }
  }

  lemma CallsGrow(me: Identity, p: Pool, a: Action)
    ensures |Act(me, p, a).calls| == |p.calls| + if a.Allocate? && a.caller !in p.calls then 1 else 0
  {
    var keys, keys' := p.calls.Keys, Act(me, p, a).calls.Keys;
    assert |keys| == |p.calls| && |keys'| == |Act(me, p, a).calls|;
    assert keys' == if a.Allocate? && a.caller !in p.calls then keys + {a.caller} else keys;
  }

  /** For any number of callers below 2^64 and any interleaving. */
  lemma {:induction false} AllocationIsExact(me: Identity, actions: seq<Action>)
    requires |ActAll(me, actions).calls| < TWO_64
    ensures NoncesExact(ActAll(me, actions))
  {
    if actions != [] {
      var front := ActAll(me, actions[..|actions| - 1]);
      CallsGrow(me, front, actions[|actions| - 1]);
      AllocationIsExact(me, actions[..|actions| - 1]);
      match actions[|actions| - 1]
      case Complete(c, request) => CompleteKeepsExact(me, front, c, request);
      case Allocate(c) =>
        if c !in front.calls {
          AllocateKeepsExact(me, front, c);
        }
    }
  }

  /** A call keeps its nonce for good, and its end once it has ended. */
  lemma {:induction false} CallsAreFinal(me: Identity, actions: seq<Action>, k: nat, c: nat)
    requires k <= |actions| && c in ActAll(me, actions[..k]).calls
    ensures c in ActAll(me, actions).calls
    ensures var was, now := ActAll(me, actions[..k]).calls[c], ActAll(me, actions).calls[c];
            was.fetched == now.fetched && (!was.Working? ==> was == now)
    decreases |actions|
  {
    if k == |actions| {
      assert actions[..k] == actions;
    } else {
      assert actions[..|actions| - 1][..k] == actions[..k];
      CallsAreFinal(me, actions[..|actions| - 1], k, c);
    }
  }

  /** Whatever the interleaving, a returned ticket carries its own call's nonce and names the
      signer's channel and provider. */
  lemma {:induction false} TicketCarriesNonce(me: Identity, actions: seq<Action>, c: nat)
    requires c in ActAll(me, actions).calls && ActAll(me, actions).calls[c].Returned?
    ensures var call := ActAll(me, actions).calls[c];
            && call.ticket.payload.nonce == call.Nonce()
            && call.ticket.payload.channelId == me.channelId && call.ticket.payload.provider == me.provider
  {
    assert actions != [];
    var front := ActAll(me, actions[..|actions| - 1]);
    if c in front.calls && front.calls[c].Returned? {
      TicketCarriesNonce(me, actions[..|actions| - 1], c);
    }
  }

  /** The bound is sharp: the counter starts over at the 2^64-th call, which aborts where
      overflows do, and else gets nonce 0, which no watermark of the gatekeeper ever expects. */
  lemma AllocationWraps(me: Identity, p: Pool, c: nat)
    requires NoncesExact(p) && |p.calls| == TWO_64 - 1 && c !in p.calls
    ensures Act(me, p, Allocate(c)).watermark == 0 && Act(me, p, Allocate(c)).calls[c] == Working(TWO_64 - 1)
    ensures Holds(Act(me, p, Allocate(c)), c, 0) && !NoncesExact(Act(me, p, Allocate(c)))
    ensures forall o, separator, s, t: Ticket, signature, client, lastNonce, now | t.nonce == 0 ::
              Verdict(o, separator, s, t, signature, client, lastNonce, now) == InvalidNonce
  {
  }
}
