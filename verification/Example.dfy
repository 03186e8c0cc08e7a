/** Small instances, spelled out: the premises of the settlement theorems can all be met at
    once, with a win in the queue and its claim in the schedule; and the inputs on which the
    programs do not do what one might expect. */
module Example {
  import opened Bytes
  import opened Abi
  import opened Eip712
  import opened Threshold
  import opened Erc20
  import opened Verifier
  import opened Escrow
  import opened Runs
  import opened Channels
  import opened Settlement
  import opened Codec
  import opened Signer
  import opened Pipeline
  import opened Arrivals
  import opened Frames

  const NIL: Bytes32 := Zeros(32)
  const CLIENT: Address := [1] + Zeros(19)
  const PROVIDER: Address := [2] + Zeros(19)
  const SELF: Address := [3] + Zeros(19)

  /** A hash that maps everything to zero: no collision among one string, so still a model. */
  const ORACLE := Oracle(_ => NIL, _ => Some(0), (_, _) => Some(CLIENT), _ => true)
  const ENV := Env(ORACLE, SELF, NIL)
  const GENESIS := State(map[], {}, Ledger(map[CLIENT := 10], map[(CLIENT, SELF) := 10]))
  const OPENING := OpenChannel(CLIENT, 1, PROVIDER, 10)

  /** Odds of one in two for 7 of the 10 tokens. */
  const TICKET := Ticket(NIL, PROVIDER, 1, 7, 1, 2, 100, NIL, NIL)
  const TASK := ClaimTask(TICKET, [], NIL)
  const SESSION := Session(SeedState(NIL, NIL, false), 0, [])
  const ARRIVAL := Arrive(TICKET, [], Some(5))
  const CLAIM := ClaimTicket(PROVIDER, 6, TICKET, [], NIL)

  lemma {:induction false} ZerosAreZero(n: nat)
    ensures FromBE(Zeros(n)) == 0
  {
    if n > 0 {
      assert Zeros(n)[..n - 1] == Zeros(n - 1);
      ZerosAreZero(n - 1);
    }
  }

  lemma AddressesDiffer()
    ensures CLIENT != PROVIDER && CLIENT != SELF && PROVIDER != SELF
    ensures CLIENT != ZERO_ADDRESS && PROVIDER != ZERO_ADDRESS
  {
    assert CLIENT[0] == 1 && PROVIDER[0] == 2 && SELF[0] == 3 && ZERO_ADDRESS[0] == 0;
  }

  lemma Opened()
    ensures Run(ENV, GENESIS, [OPENING]).channels == map[NIL := Channel(CLIENT, PROVIDER, 10, 0)]
    ensures Run(ENV, GENESIS, [OPENING]).nullifiers == {}
    ensures Deployed(ENV, GENESIS) && Valid(ENV, OPENING) && Valid(ENV, CLAIM)
  {
    AddressesDiffer();
    assert [OPENING][..0] == [];
    assert Run(ENV, GENESIS, [OPENING]) == Apply(ENV, GENESIS, OPENING);
  }

  lemma TicketWins()
    ensures SessionRun(ORACLE, NIL, CLIENT, SESSION, [ARRIVAL]).queue == [TASK]
  {
    assert [ARRIVAL][..0] == [];
    ZerosAreZero(32);
    GateProductFits(1, 2);
    assert Winning(ORACLE, NIL, NIL, TICKET);
    assert Decide(ORACLE, NIL, SESSION.gate, TICKET, [], CLIENT, 0, Some(5)) == ClaimAndRotateWinning;
  }

  lemma Scheduled(st: State)
    requires st.channels == map[NIL := Channel(CLIENT, PROVIDER, 10, 0)] && Valid(ENV, CLAIM)
    ensures Schedule(ENV, st, [CLAIM], 6, PROVIDER, NIL, [TASK]) && OurClaims([CLAIM], PROVIDER, NIL) == [CLAIM]
    ensures FaceSum([TASK]) == 7
  {
    assert [CLAIM][..0] == [] && [TASK][..0] == [];
    OnlyKey();
  }

  lemma OnlyKey()
    ensures CollisionFree(ORACLE, ClaimKeys([CLAIM]) + QueueKeys([TASK]))
  {
    assert forall x | x in ClaimKeys([CLAIM]) + QueueKeys([TASK]) :: x == NullifierKey(NIL, 1);
  }

  lemma PremisesCanBeMet()
    ensures SettlementPremises(ENV, GENESIS, [OPENING], [CLAIM], 6, PROVIDER, CLIENT, NIL, SESSION, [ARRIVAL])
    ensures SessionRun(ORACLE, NIL, CLIENT, SESSION, [ARRIVAL]).queue == [TASK]
    ensures OurClaims([CLAIM], PROVIDER, NIL) == [CLAIM]
  {
    Opened();
    TicketWins();
    Scheduled(Run(ENV, GENESIS, [OPENING]));
  }

  // ------------------------------------------------------------- from the key to the money

  const ME := Identity(ORACLE, NIL, NIL, PROVIDER, Debug)
  const PEERS := Peers(ME, CLIENT)
  const START := Line(0, SESSION)
  const PRICING := PricingConfig(7, 1, 2, 99)
  const CALL := Request(NIL, PRICING, NIL, Some(1), _ => Some([]))

  /** A call that reads its clock before the epoch, and one that returns a ticket. */
  const FAILING := Sign(CALL.(now := None), [], Some(5))
  const SIGNING := Sign(CALL, [], Some(5))

  lemma SignedFirst()
    ensures SignTicket(ME, 0, CALL) == Ok(SignedTicket(PayloadOf(ME, 0, CALL), []))
    ensures Narrow(PayloadOf(ME, 0, CALL)) == TICKET
  {
  }

  lemma TalkedOnce()
    ensures Talk(PEERS, START, [SIGNING]).session.queue == [TASK]
  {
    SignedFirst();
    assert [SIGNING][..0] == [] && [ARRIVAL][..0] == [];
    TicketWins();
  }

  /** A signed ticket, sent, judged, queued and claimed, under the premises of FromKeyToMoney. */
  lemma PipelineCanBeMet()
    ensures PipelinePremises(ENV, GENESIS, [OPENING], [CLAIM], 6, PEERS, START, [SIGNING])
    ensures FitFrames(Posted(ME, 0, [SIGNING])) && Talk(PEERS, START, [SIGNING]).session.queue == [TASK]
    ensures OurClaims([CLAIM], PROVIDER, NIL) == [CLAIM]
  {
    Opened();
    Scheduled(Run(ENV, GENESIS, [OPENING]));
    TalkedOnce();
    PostedOnce();
    assert ProperRequest(ENV, SIGNING);
  }

  lemma PostedOnce()
    ensures FitFrames(Posted(ME, 0, [SIGNING]))
  {
    SignedFirst();
    assert [SIGNING][..0] == [] && Posted(ME, 0, []) == [];
  }

  // ------------------------------------------------------------------------ a gap in the nonces

  /** After a call that fails the next ticket has nonce 2, which the gatekeeper refuses; without
      that call the same ticket would have been claimed. */
  lemma FailedCallBlocksTheNext()
    ensures SignTicket(ME, 0, FAILING.request) == Err(ClockBeforeEpoch)
    ensures SignTicket(ME, 1, CALL).Ok? && SignTicket(ME, 1, CALL).value.payload.nonce == 2
    ensures Talk(PEERS, START, [FAILING]) == Line(1, SESSION)
    ensures Judged(PEERS, Talk(PEERS, START, [FAILING]), SIGNING) == Reject(InvalidNonce)
    ensures Judged(PEERS, START, SIGNING) == ClaimAndRotateWinning
  {
    SignedFirst();
    assert [FAILING][..0] == [];
    assert Talk(PEERS, START, []) == START;
    JudgedByLag(PEERS, Line(1, SESSION), SIGNING);
    GateWinsAtHalf(TICKET);
    JudgedByLag(PEERS, START, SIGNING);
  }

  /** With the all-zero hash every ticket at odds 1/2 wins. */
  lemma GateWinsAtHalf(t: Ticket)
    requires t.winProbNumerator == 1 && t.winProbDenominator == 2
    ensures Winning(ORACLE, NIL, NIL, t)
  {
    ZerosAreZero(32);
    GateProductFits(1, 2);
  }

  // ------------------------------------------------------------------------- a reinstalled seed

  const SECOND := TICKET.(nonce := 2)
  const EVENTS: seq<Event> :=
    [Present(TICKET, [], CLIENT, 0, Some(5)), Rotate(NIL), Present(SECOND, [], CLIENT, 1, Some(6))]

  /** A win, a rotation back to the same seed, and a second win under the same commitment. */
  lemma ReinstalledSeedWinsAgain()
    ensures Won(ORACLE, NIL, SESSION.gate, EVENTS, 0)
    ensures Won(ORACLE, NIL, SESSION.gate, EVENTS, 2)
    ensures SECOND.providerCommitment == TICKET.providerCommitment
  {
    assert EVENTS[..0] == [];
    GateWinsAtHalf(TICKET);
    GateWinsAtHalf(SECOND);
    DecideIff(ORACLE, NIL, SESSION.gate, TICKET, [], CLIENT, 0, Some(5));
    AfterStep(ORACLE, NIL, SESSION.gate, EVENTS, 0);
    AfterStep(ORACLE, NIL, SESSION.gate, EVENTS, 1);
    DecideIff(ORACLE, NIL, SESSION.gate, SECOND, [], CLIENT, 1, Some(6));
  }

  // --------------------------------------------------------------------- wins that pay nothing

  const ONES: Bytes32 := Top(32)

  /** A hash that maps everything to 2^256 - 1. */
  const TOP_ORACLE := ORACLE.(keccak := _ => ONES)

  function Top(n: nat): (s: bytes)
    ensures |s| == n
  {
    seq(n, _ => 255)
  }

  lemma {:induction false} TopIsMax(n: nat)
    ensures FromBE(Top(n)) == Pow256(n) - 1
  {
    if n > 0 {
      assert Top(n)[..n - 1] == Top(n - 1);
      TopIsMax(n - 1);
    }
  }

  lemma ClaimedByGate(t: Ticket)
    requires t.nonce == 1 && t.providerCommitment == NIL && t.expiry == 100 && Winning(ORACLE, NIL, NIL, t)
    ensures Decide(ORACLE, NIL, SESSION.gate, t, [], CLIENT, 0, Some(5)) == ClaimAndRotateWinning
  {
    DecideIff(ORACLE, NIL, SESSION.gate, t, [], CLIENT, 0, Some(5));
  }

  const TWO_IN_ONE := TICKET.(winProbNumerator := 2, winProbDenominator := 1)

  /** Odds of two in one: a win for the gatekeeper, an arithmetic panic on-chain. */
  lemma BetterThanCertainIsUnpayable()
    ensures Decide(ORACLE, NIL, SESSION.gate, TWO_IN_ONE, [], CLIENT, 0, Some(5)) == ClaimAndRotateWinning
    ensures Claim(ENV, Run(ENV, GENESIS, [OPENING]), PROVIDER, 6, TWO_IN_ONE, [], NIL) == Err(ArithmeticPanic)
  {
    assert Winning(ORACLE, NIL, NIL, TWO_IN_ONE);
    ClaimedByGate(TWO_IN_ONE);
    Opened();
    PanicsOnChain(Run(ENV, GENESIS, [OPENING]));
  }

  lemma PanicsOnChain(st: State)
    requires st.channels == map[NIL := Channel(CLIENT, PROVIDER, 10, 0)] && st.nullifiers == {}
    ensures Claim(ENV, st, PROVIDER, 6, TWO_IN_ONE, [], NIL) == Err(ArithmeticPanic)
  {
    AddressesDiffer();
    ChainOverflows(2, 1);
  }

  /** A ticket for a channel that was never opened: a win for the gatekeeper, which does not look
      at the channel, and nothing to claim from. */
  lemma ForeignChannelIsUnpayable()
    ensures var t := TICKET.(channelId := ONES);
            && Decide(ORACLE, NIL, SESSION.gate, t, [], CLIENT, 0, Some(5)) == ClaimAndRotateWinning
            && Claim(ENV, Run(ENV, GENESIS, [OPENING]), PROVIDER, 6, t, [], NIL) == Err(InvalidChannel)
  {
    Opened();
    assert ONES[0] != NIL[0];
    var t := TICKET.(channelId := ONES);
    GateWinsAtHalf(t);
    ClaimedByGate(t);
  }

  /** The contract as it is deployed under that hash, whose digests and ids are all the same. */
  const TOP_ENV := Env(TOP_ORACLE, SELF, DomainSeparator(TOP_ORACLE, 1, SELF))
  const TOP_TICKET := Ticket(ONES, PROVIDER, 1, 7, 1, 1, 100, NIL, ONES)

  lemma TopOpened()
    ensures Run(TOP_ENV, GENESIS, [OPENING]).channels == map[ONES := Channel(CLIENT, PROVIDER, 10, 0)]
    ensures Run(TOP_ENV, GENESIS, [OPENING]).nullifiers == {}
    ensures Deployed(TOP_ENV, GENESIS) && Valid(TOP_ENV, OPENING)
  {
    AddressesDiffer();
    assert [OPENING][..0] == [];
    assert Run(TOP_ENV, GENESIS, [OPENING]) == Apply(TOP_ENV, GENESIS, OPENING);
  }

  lemma TopHashIsMax()
    ensures forall digest: Bytes32, a: Bytes32, b: Bytes32 :: CombinedHash(TOP_ORACLE, digest, a, b) == MAX
  {
    PowerValues();
    TopIsMax(32);
  }

  /** Certain odds and the highest hash: a win for the gatekeeper, a loss on-chain. */
  lemma TopHashIsUnpayable()
    ensures Decide(TOP_ORACLE, TOP_ENV.separator, SeedState(NIL, ONES, false), TOP_TICKET, [], CLIENT, 0, Some(5))
            == ClaimAndRotateWinning
    ensures Claim(TOP_ENV, Run(TOP_ENV, GENESIS, [OPENING]), PROVIDER, 6, TOP_TICKET, [], NIL)
            == Err(NonWinningTicket)
  {
    DecideIff(TOP_ORACLE, TOP_ENV.separator, SeedState(NIL, ONES, false), TOP_TICKET, [], CLIENT, 0, Some(5));
    TopOpened();
    LosesOnChain(Run(TOP_ENV, GENESIS, [OPENING]));
  }

  lemma LosesOnChain(st: State)
    requires st.channels == map[ONES := Channel(CLIENT, PROVIDER, 10, 0)] && st.nullifiers == {}
    ensures Claim(TOP_ENV, st, PROVIDER, 6, TOP_TICKET, [], NIL) == Err(NonWinningTicket)
  {
    AddressesDiffer();
    TopHashIsMax();
    UnitDivision(1);
  }

  const AGAIN := TICKET.(faceValue := 3)

  /** A new session starts from nonce 1 again: its win on a nonce that an earlier session has been
      paid for is refused on-chain. */
  lemma PaidNonceIsUnpayable()
    ensures Decide(ORACLE, NIL, SESSION.gate, AGAIN, [], CLIENT, 0, Some(5)) == ClaimAndRotateWinning
    ensures Claim(ENV, Run(ENV, GENESIS, [OPENING, CLAIM]), PROVIDER, 7, AGAIN, [], NIL) == Err(TicketAlreadyClaimed)
  {
    GateWinsAtHalf(AGAIN);
    ClaimedByGate(AGAIN);
    ClaimPaid();
    AddressesDiffer();
  }

  lemma ClaimPaid()
    ensures var st := Run(ENV, GENESIS, [OPENING, CLAIM]);
            st.channels == map[NIL := Channel(CLIENT, PROVIDER, 3, 0)] && st.nullifiers == {NIL}
  {
    Opened();
    AddressesDiffer();
    GateWinsAtHalf(TICKET);
    GateProductFits(1, 2);
    assert [OPENING, CLAIM][..1] == [OPENING] && [OPENING][..0] == [];
    assert Run(ENV, GENESIS, [OPENING, CLAIM]) == Apply(ENV, Run(ENV, GENESIS, [OPENING]), CLAIM);
    assert ChainWins(1, 2, CombinedHash(ORACLE, NIL, NIL, NIL));
  }

  // ------------------------------------------------------------------------ two calls at once

  const ACTIONS: seq<Action> := [Allocate(0), Allocate(1), Complete(1, CALL), Complete(0, CALL)]
  const OVERTAKEN: seq<Delivery> := [FromCall(1, Some(5)), FromCall(0, Some(5))]

  lemma BothReturned()
    ensures var p := ActAll(ME, ACTIONS);
            p == Pool(2, map[0 := Returned(0, SignedTicket(PayloadOf(ME, 0, CALL), [])),
                             1 := Returned(1, SignedTicket(PayloadOf(ME, 1, CALL), []))])
  {
    assert ACTIONS[..3][..2] == ACTIONS[..2] && ACTIONS[..2][..1] == ACTIONS[..1] && ACTIONS[..1][..0] == [];
    assert ActAll(ME, ACTIONS[..1]) == Act(ME, EMPTY_POOL, Allocate(0));
    assert ActAll(ME, ACTIONS[..2]) == Act(ME, ActAll(ME, ACTIONS[..1]), Allocate(1));
    assert ActAll(ME, ACTIONS[..3]) == Act(ME, ActAll(ME, ACTIONS[..2]), Complete(1, CALL));
  }

  const LATE := Arrive(Narrow(PayloadOf(ME, 1, CALL)), [], Some(5))

  lemma DeliveredInputs()
    ensures Reached(ME, ACTIONS, ActAll(ME, ACTIONS)) && AllDeliverable(ActAll(ME, ACTIONS), OVERTAKEN)
    ensures Delivered(ActAll(ME, ACTIONS), OVERTAKEN) == [LATE, ARRIVAL]
  {
    BothReturned();
    SignedFirst();
  }

  /** The second ticket overtakes the first: it is refused, and the first one is accepted. */
  lemma OvertakenTicketIsLost()
    ensures Reached(ME, ACTIONS, ActAll(ME, ACTIONS)) && AllDeliverable(ActAll(ME, ACTIONS), OVERTAKEN)
    ensures Delivered(ActAll(ME, ACTIONS), OVERTAKEN) == [LATE, ARRIVAL]
    ensures Rejects(ORACLE, NIL, CLIENT, SESSION, LATE)
    ensures SessionRun(ORACLE, NIL, CLIENT, SESSION, [LATE, ARRIVAL]).lastNonce == 1
  {
    DeliveredInputs();
    AheadIsRefused(ORACLE, NIL, CLIENT, SESSION, LATE);
    assert [LATE, ARRIVAL][..1] == [LATE] && [LATE][..0] == [];
    assert SessionRun(ORACLE, NIL, CLIENT, SESSION, [LATE]) == SESSION;
    assert FitNow(ORACLE, NIL, CLIENT, SESSION, ARRIVAL);
    GateTakesNext(ORACLE, NIL, CLIENT, SESSION, ARRIVAL);
  }

  // ------------------------------------------------------------------------ on the wire

  const WIDE := SignedTicket(PayloadOf(ME, 0, CALL).(faceValue := TWO_128), [])

  /** A face value of 2^128 leaves the client's encoder as zero, and is read so by the provider. */
  method WideFaceValueArrivesAsZero() returns (decoded: Result<IncomingTicket, WireError>)
    ensures decoded.Ok? && decoded.value.ticket.faceValue == 0 && !SameFields(WIDE.payload, decoded.value.ticket)
  {
    var frame := EncodeTicketFrame(WIDE, []);
    TicketRoundTrip(WIDE, [], []);
    assert frame == frame + [];
    var wire := new ByteStream(frame);
    var body := ReadFrameFrom(wire);
    decoded := DecodeTicketFrame(body.value.value);
  }

  // ------------------------------------------------------------------------ mirrored signatures

  /** A signature parser for two mirrored signatures, the empty one and all others. */
  const MIRRORS :=
    ORACLE.(sigS := s => Some(if s == [] then SECP256K1_HALF_ORDER else SECP256K1_N - SECP256K1_HALF_ORDER))

  /** Just above half of the curve order both of them are low enough. */
  lemma BothSignaturesAreLow()
    ensures SignedBy(MIRRORS, NIL, [], CLIENT) && SignedBy(MIRRORS, NIL, [1], CLIENT)
    ensures MIRRORS.sigS([]).value + MIRRORS.sigS([1]).value == SECP256K1_N
  {
    LowSIsUniqueIff(MIRRORS, NIL, [], [1], CLIENT, SECP256K1_HALF_ORDER);
  }

  // ------------------------------------------------------------------------ byte by byte

  lemma TypeBytes()
    ensures Code(HandshakeInit) == 0x01 && Code(HandshakeAck) == 0x02 && Code(TicketRequest) == 0x03
    ensures Code(ComputeResp) == 0x04 && Code(WinNotify) == 0x05 && Code(ErrorHalt) == 0xFF
  {
  }

  /** The magic spells SPMP, most significant byte first. */
  lemma MagicBytes()
    ensures MAGIC_BYTES == [0x53, 0x50, 0x4D, 0x50]
  {
    assert ToBE(0x53, 1) == [0x53];
    assert ToBE(0x5350, 2) == [0x53, 0x50];
    assert ToBE(0x53504D, 3) == [0x53, 0x50, 0x4D];
  }

  /** Two frames, byte by byte: the length comes least significant byte first. */
  lemma WireVectors()
    ensures Frame(Code(TicketRequest), [7, 8]) == [0x53, 0x50, 0x4D, 0x50, 0x03, 2, 0, 0, 0, 7, 8]
    ensures Frame(Code(ComputeResp), ResponseBytes(1, [65])) == [0x53, 0x50, 0x4D, 0x50, 0x04, 2, 0, 0, 0, 1, 65]
  {
    MagicBytes();
    assert ToLE(0, 3) == [0, 0, 0];
    assert ToLE(2, 4) == [2, 0, 0, 0];
  }

  /** Text goes character by character. */
  lemma TextBytes()
    ensures Ascii("SPMP_Protocol") == [0x53, 0x50, 0x4D, 0x50, 0x5F, 0x50, 0x72, 0x6F, 0x74, 0x6F, 0x63, 0x6F, 0x6C]
  {
  }
}
