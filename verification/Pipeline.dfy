/** One client and one provider: the client signs ticket after ticket, the provider judges them
    in that order, and the gatekeeper's watermark follows the signer's counter, or falls behind
    it for good. Then the same conversation over the wire, up to the money. */
module Pipeline {
  import opened Bytes
  import opened Abi
  import opened Eip712
  import opened Verifier
  import opened Frames
  import opened Codec
  import opened Signer
  import opened Escrow
  import opened Runs
  import opened Settlement

  /** The client's signer, and the address that the provider takes to be the client's. */
  datatype Peers = Peers(me: Identity, client: Address)

  /** A signing call, with the prompt that its ticket travels with and the clock when the
      provider judges it; or a rotation of the provider's seed. */
  datatype Turn =
    | Sign(request: Request, prompt: bytes, arrival: Option<u64>)
    | Rotation(newSeed: Bytes32)

  /** The two watermarks: the signer's counter, and the one in the provider's session. */
  datatype Line = Line(watermark: u64, session: Session)

  // ---------------------------------------------------------------------- the conversation

  /** A failed call moves the counter alone; a ticket is judged by the session. */
  function TakeTurn(p: Peers, line: Line, turn: Turn): Line
  {
    match turn
    case Rotation(newSeed) =>
      line.(session := SessionStep(p.me.oracle, p.me.separator, p.client, line.session, RotateTo(newSeed)))
    case Sign(request, _, arrival) =>
      match SignTicket(p.me, line.watermark, request)
      case Err(_) => Line(NextNonce(line.watermark), line.session)
      case Ok(s) =>
        Line(NextNonce(line.watermark),
             SessionStep(p.me.oracle, p.me.separator, p.client, line.session,
                         Arrive(Narrow(s.payload), s.signature, arrival)))
  }

  function Talk(p: Peers, line: Line, turns: seq<Turn>): Line
  {
    if turns == [] then line else TakeTurn(p, Talk(p, line, turns[..|turns| - 1]), turns[|turns| - 1])
  }

  /** Where things stand before turn i. */
  function At(p: Peers, line: Line, turns: seq<Turn>, i: nat): Line
    requires i <= |turns|
  {
    Talk(p, line, turns[..i])
  }

  /** The gatekeeper's decision on the ticket of this turn. */
  function Judged(p: Peers, line: Line, turn: Turn): GatekeeperDecision
    requires turn.Sign? && CanSign(p.me, line.watermark, turn.request)
  {
    var s := SignTicket(p.me, line.watermark, turn.request).value;
    Decide(p.me.oracle, p.me.separator, line.session.gate, Narrow(s.payload), s.signature, p.client,
           line.session.lastNonce, turn.arrival)
  }

  /** A returned ticket that is all right apart from its nonce: its seed is held and unspent,
      there is time left, and the signature is the client's. */
  ghost predicate Fit(p: Peers, line: Line, turn: Turn)
    requires turn.Sign? && CanSign(p.me, line.watermark, turn.request)
  {
    var s := SignTicket(p.me, line.watermark, turn.request).value;
    var gate := line.session.gate;
    && !gate.invalidated
    && Bound(p.me.oracle, p.me.separator, gate.commitment, Narrow(s.payload), s.signature, p.client, turn.arrival)
  }

  ghost predicate Good(p: Peers, line: Line, turn: Turn)
    requires turn.Sign?
  {
    CanSign(p.me, line.watermark, turn.request) && Fit(p, line, turn)
  }

  /** The ticket of this turn is served or claimed as its draw has it. */
  ghost predicate JudgedByDraw(p: Peers, line: Line, turn: Turn)
    requires turn.Sign?
  {
    && CanSign(p.me, line.watermark, turn.request)
    && var t := Narrow(SignTicket(p.me, line.watermark, turn.request).value.payload);
       Judged(p, line, turn) == if Winning(p.me.oracle, p.me.separator, line.session.gate.seed, t)
                                then ClaimAndRotateWinning else ServeLosing
  }

  /** A fit ticket is authentic to a gatekeeper that is level with the counter, and to no other. */
  lemma FitIsAuthentic(p: Peers, line: Line, turn: Turn)
    requires turn.Sign? && CanSign(p.me, line.watermark, turn.request) && line.watermark + 1 < TWO_64
    ensures var s, gate := SignTicket(p.me, line.watermark, turn.request).value, line.session.gate;
            && s.payload.nonce == line.watermark + 1
            && (Fit(p, line, turn) && line.session.lastNonce == line.watermark
                <==> !gate.invalidated && Authentic(p.me.oracle, p.me.separator, gate.commitment, Narrow(s.payload),
                                                    s.signature, p.client, line.session.lastNonce, turn.arrival))
  {
  }

  /** The decision on a ticket whose nonce has not wrapped, by the lag of the session's watermark
      behind the counter. */
  lemma JudgedByLag(p: Peers, line: Line, turn: Turn)
    requires turn.Sign? && CanSign(p.me, line.watermark, turn.request) && line.watermark + 1 < TWO_64
    ensures var d := Judged(p, line, turn);
            && (!d.Reject? <==> Fit(p, line, turn) && line.session.lastNonce == line.watermark)
            && (d == Reject(InvalidNonce)
                <==> !line.session.gate.invalidated && line.session.lastNonce != line.watermark)
    ensures !Judged(p, line, turn).Reject? ==> JudgedByDraw(p, line, turn)
  {
    var s := SignTicket(p.me, line.watermark, turn.request).value;
    FitIsAuthentic(p, line, turn);
    DecideIff(p.me.oracle, p.me.separator, line.session.gate, Narrow(s.payload), s.signature, p.client,
              line.session.lastNonce, turn.arrival);
  }

  /** What a turn does to the two watermarks and the queue: only a good ticket from a call that
      the session has kept up with moves the session. */
  lemma TurnEffect(p: Peers, line: Line, turn: Turn)
    requires line.watermark + 1 < TWO_64
    ensures var line' := TakeTurn(p, line, turn);
            && line'.watermark == line.watermark + (if turn.Sign? then 1 else 0)
            && if turn.Sign? && line.session.lastNonce == line.watermark && Good(p, line, turn)
               then line'.session.lastNonce == line.watermark + 1
               else line'.session.lastNonce == line.session.lastNonce && line'.session.queue == line.session.queue
  {
    if turn.Sign? && CanSign(p.me, line.watermark, turn.request) {
      JudgedByLag(p, line, turn);
    }
  }

  lemma AtFront(p: Peers, line: Line, turns: seq<Turn>)
    requires turns != []
    ensures forall i | 0 <= i < |turns| - 1 :: At(p, line, turns, i) == At(p, line, turns[..|turns| - 1], i)
    ensures At(p, line, turns, |turns| - 1) == Talk(p, line, turns[..|turns| - 1])
  {
    forall i | 0 <= i < |turns| - 1 ensures At(p, line, turns, i) == At(p, line, turns[..|turns| - 1], i) {
      assert turns[..|turns| - 1][..i] == turns[..i];
    }
  }

  // ------------------------------------------------------------------------- gaps

  /** From an equal start: the session never gets ahead of the counter, and keeps up with it
      exactly while every call so far has returned a good ticket. */
  lemma {:induction false} WatermarkLag(p: Peers, line: Line, turns: seq<Turn>)
    requires line.session.lastNonce == line.watermark && line.watermark + |turns| < TWO_64
    ensures var now := Talk(p, line, turns);
            && now.session.lastNonce <= now.watermark <= line.watermark + |turns|
            && (now.session.lastNonce == now.watermark
                <==> forall i | 0 <= i < |turns| && turns[i].Sign? :: Good(p, At(p, line, turns, i), turns[i]))
  {
    if turns != [] {
      var front := turns[..|turns| - 1];
      WatermarkLag(p, line, front);
      AtFront(p, line, turns);
      TurnEffect(p, Talk(p, line, front), turns[|turns| - 1]);
    }
  }

  lemma LevelUpTo(p: Peers, line: Line, turns: seq<Turn>, i: nat)
    requires line.session.lastNonce == line.watermark && line.watermark + |turns| < TWO_64 && i < |turns|
    ensures var now := At(p, line, turns, i);
            && now.watermark + 1 < TWO_64
            && (now.session.lastNonce == now.watermark
                <==> forall h | 0 <= h < i && turns[h].Sign? :: Good(p, At(p, line, turns, h), turns[h]))
  {
    WatermarkLag(p, line, turns[..i]);
    forall h | 0 <= h < i ensures At(p, line, turns[..i], h) == At(p, line, turns, h) {
      assert turns[..i][..h] == turns[..h];
    }
  }

  /** A returned ticket that meets an unspent seed is refused for its nonce if and only if some
      earlier call failed, or returned a ticket that was not good for another reason. */
  lemma NonceRefusedIff(p: Peers, line: Line, turns: seq<Turn>, i: nat)
    requires line.session.lastNonce == line.watermark && line.watermark + |turns| < TWO_64
    requires i < |turns| && turns[i].Sign? && CanSign(p.me, At(p, line, turns, i).watermark, turns[i].request)
    requires !At(p, line, turns, i).session.gate.invalidated
    ensures Judged(p, At(p, line, turns, i), turns[i]) == Reject(InvalidNonce)
            <==> exists h :: 0 <= h < i && turns[h].Sign? && !Good(p, At(p, line, turns, h), turns[h])
  {
    LevelUpTo(p, line, turns, i);
    JudgedByLag(p, At(p, line, turns, i), turns[i]);
  }

  /** How many calls were made. */
  function Calls(turns: seq<Turn>): nat
  {
    if turns == [] then 0 else Calls(turns[..|turns| - 1]) + if turns[|turns| - 1].Sign? then 1 else 0
  }

  /** What the i-th turn's call fetches, whatever became of the calls before. */
  function Fetched(start: u64, turns: seq<Turn>): u64 {
    (start + Calls(turns)) % TWO_64
  }

  lemma {:induction false} CounterCounts(p: Peers, line: Line, turns: seq<Turn>)
    requires line.watermark + |turns| < TWO_64
    ensures Talk(p, line, turns).watermark == Fetched(line.watermark, turns) <= line.watermark + |turns|
  {
    FetchedIs(line.watermark, turns);
    if turns != [] {
      CounterCounts(p, line, turns[..|turns| - 1]);
      FetchedIs(line.watermark, turns[..|turns| - 1]);
      TurnEffect(p, Talk(p, line, turns[..|turns| - 1]), turns[|turns| - 1]);
    }
  }

  /** Whether the guards of the i-th turn's call let it return a ticket. */
  predicate Passes(p: Peers, start: u64, turns: seq<Turn>, i: nat)
    requires i < |turns| && turns[i].Sign?
  {
    CanSign(p.me, Fetched(start, turns[..i]), turns[i].request)
  }

  /** The ticket of this turn is returned, and served or claimed. */
  ghost predicate Accepted(p: Peers, line: Line, turn: Turn)
  {
    && turn.Sign? && CanSign(p.me, line.watermark, turn.request)
    && !Judged(p, line, turn).Reject?
  }

  /** The ticket of this turn is returned, and refused for its nonce. */
  ghost predicate NonceRefused(p: Peers, line: Line, turn: Turn)
  {
    && turn.Sign? && CanSign(p.me, line.watermark, turn.request)
    && Judged(p, line, turn) == Reject(InvalidNonce)
  }

  /** When nothing else is wrong with the tickets, none of them is refused for its nonce if and
      only if no call whose guards fail comes before one whose guards pass. */
  lemma GapsBlockTheGate(p: Peers, line: Line, turns: seq<Turn>)
    requires line.session.lastNonce == line.watermark && line.watermark + |turns| < TWO_64
    requires forall i | 0 <= i < |turns| && turns[i].Sign? && Passes(p, line.watermark, turns, i) ::
               Good(p, At(p, line, turns, i), turns[i])
    ensures (forall i | 0 <= i < |turns| :: !NonceRefused(p, At(p, line, turns, i), turns[i]))
            <==> forall h, i | 0 <= h < i < |turns| && turns[h].Sign? && turns[i].Sign?
                               && Passes(p, line.watermark, turns, i) :: Passes(p, line.watermark, turns, h)
  {
    forall i | 0 <= i < |turns| && turns[i].Sign?
      ensures Passes(p, line.watermark, turns, i) <==> CanSign(p.me, At(p, line, turns, i).watermark, turns[i].request)
    {
      CounterCounts(p, line, turns[..i]);
    }
    forall i | 0 <= i < |turns| && turns[i].Sign? && Passes(p, line.watermark, turns, i)
      ensures NonceRefused(p, At(p, line, turns, i), turns[i])
              <==> exists h :: 0 <= h < i && turns[h].Sign? && !Passes(p, line.watermark, turns, h)
    {
      NonceRefusedIff(p, line, turns, i);
    }
  }

  /** A gap is for good: while every nonce that arrives is beyond the next one, everything is
      refused, and neither the watermark nor the queue moves, whatever the seed is rotated to. */
  lemma {:induction false} StuckForever(o: Oracle, separator: Bytes32, client: Address, s: Session, inputs: seq<Input>)
    requires forall k | 0 <= k < |inputs| && inputs[k].Arrive? :: inputs[k].t.nonce > s.lastNonce + 1
    ensures var s' := SessionRun(o, separator, client, s, inputs);
            s'.lastNonce == s.lastNonce && s'.queue == s.queue
    ensures forall k | 0 <= k < |inputs| && inputs[k].Arrive? ::
              var mid := SessionRun(o, separator, client, s, inputs[..k]);
              Decide(o, separator, mid.gate, inputs[k].t, inputs[k].signature, client, mid.lastNonce, inputs[k].now)
              .Reject?
  {
    if inputs != [] {
      var front, last := inputs[..|inputs| - 1], inputs[|inputs| - 1];
      StuckForever(o, separator, client, s, front);
      forall k | 0 <= k < |front| ensures inputs[..k] == front[..k] {
      }
      if last.Arrive? {
        AheadIsRefused(o, separator, client, SessionRun(o, separator, client, s, front), last);
      }
    }
  }

  lemma AheadIsRefused(o: Oracle, separator: Bytes32, client: Address, s: Session, i: Input)
    requires i.Arrive? && i.t.nonce > s.lastNonce + 1
    ensures Decide(o, separator, s.gate, i.t, i.signature, client, s.lastNonce, i.now).Reject?
    ensures SessionStep(o, separator, client, s, i) == s
  {
    DecideIff(o, separator, s.gate, i.t, i.signature, client, s.lastNonce, i.now);
  }

  /** So once a conversation has a gap, no later ticket of the client is ever accepted. */
  lemma {:induction false} NothingClosesAGap(p: Peers, line: Line, turns: seq<Turn>)
    requires line.session.lastNonce < line.watermark && line.watermark + |turns| < TWO_64
    ensures var now := Talk(p, line, turns);
            && now.session.lastNonce == line.session.lastNonce && now.session.queue == line.session.queue
            && line.watermark <= now.watermark <= line.watermark + |turns|
    ensures forall i | 0 <= i < |turns| :: !Accepted(p, At(p, line, turns, i), turns[i])
  {
    if turns != [] {
      var front, last := turns[..|turns| - 1], turns[|turns| - 1];
      var mid := Talk(p, line, front);
      NothingClosesAGap(p, line, front);
      AtFront(p, line, turns);
      TurnEffect(p, mid, last);
      if last.Sign? && CanSign(p.me, mid.watermark, last.request) {
        JudgedByLag(p, mid, last);
      }
    }
  }

  lemma GoodCallServed(p: Peers, line: Line, turns: seq<Turn>, i: nat)
    requires line.session.lastNonce == line.watermark && line.watermark + |turns| < TWO_64
    requires i < |turns| && turns[i].Sign? && Good(p, At(p, line, turns, i), turns[i])
    requires forall h | 0 <= h < i && turns[h].Sign? :: Good(p, At(p, line, turns, h), turns[h])
    ensures JudgedByDraw(p, At(p, line, turns, i), turns[i])
  {
    LevelUpTo(p, line, turns, i);
    JudgedByLag(p, At(p, line, turns, i), turns[i]);
  }

  /** Without a gap every ticket is served or claimed by its draw, and the session ends level
      with the counter. */
  lemma GoodCallsAreServed(p: Peers, line: Line, turns: seq<Turn>)
    requires line.session.lastNonce == line.watermark && line.watermark + |turns| < TWO_64
    requires forall i | 0 <= i < |turns| && turns[i].Sign? :: Good(p, At(p, line, turns, i), turns[i])
    ensures Talk(p, line, turns).session.lastNonce == Fetched(line.watermark, turns)
    ensures forall i | 0 <= i < |turns| && turns[i].Sign? :: JudgedByDraw(p, At(p, line, turns, i), turns[i])
  {
    WatermarkLag(p, line, turns);
    CounterCounts(p, line, turns);
    forall i | 0 <= i < |turns| && turns[i].Sign? ensures JudgedByDraw(p, At(p, line, turns, i), turns[i]) {
      GoodCallServed(p, line, turns, i);
    }
  }

  // ----------------------------------------------------------------------- over the wire

  /** The frame that a turn sends, if its call returns a ticket. */
  function Outgoing(me: Identity, fetched: u64, turn: Turn): Option<IncomingTicket>
  {
    if turn.Rotation? then None
    else
      match SignTicket(me, fetched, turn.request)
      case Err(_) => None
      case Ok(s) => Some(IncomingTicket(Narrow(s.payload), s.signature, turn.prompt))
  }

  /** The tickets that the client sends, in order. */
  function Posted(me: Identity, start: u64, turns: seq<Turn>): seq<IncomingTicket>
  {
    if turns == [] then []
    else
      var front := turns[..|turns| - 1];
      Posted(me, start, front)
      + match Outgoing(me, Fetched(start, front), turns[|turns| - 1])
        case None => []
        case Some(f) => [f]
  }

  /** The client sends the ticket of each call that returns one, with that call's prompt, after
      those of the calls before. */
  lemma {:induction false} PostedInOrder(me: Identity, start: u64, turns: seq<Turn>, i: nat)
    requires i < |turns| && turns[i].Sign? && CanSign(me, Fetched(start, turns[..i]), turns[i].request)
    ensures var k := |Posted(me, start, turns[..i])|;
            var s := SignTicket(me, Fetched(start, turns[..i]), turns[i].request).value;
            && k < |Posted(me, start, turns)|
            && Posted(me, start, turns)[k] == IncomingTicket(Narrow(s.payload), s.signature, turns[i].prompt)
    decreases |turns|
  {
    var front := turns[..|turns| - 1];
    if i < |front| {
      assert front[..i] == turns[..i];
      PostedInOrder(me, start, front, i);
    }
  }

  /** And nothing else: each ticket sent is that of some call, in its place. */
  lemma {:induction false} PostedComesFrom(me: Identity, start: u64, turns: seq<Turn>, k: nat) returns (i: nat)
    requires k < |Posted(me, start, turns)|
    ensures i < |turns| && turns[i].Sign? && CanSign(me, Fetched(start, turns[..i]), turns[i].request)
    ensures k == |Posted(me, start, turns[..i])|
    decreases |turns|
  {
    var front := turns[..|turns| - 1];
    if k < |Posted(me, start, front)| {
      i := PostedComesFrom(me, start, front, k);
      assert front[..i] == turns[..i];
    } else {
      i := |front|;
    }
  }

  /** The provider's side of the conversation: it takes the next result off the wire, with its
      clock, or rotates its seed. */
  datatype Moment = Take(now: Option<u64>) | Reseed(newSeed: Bytes32)

  function Moments(me: Identity, start: u64, turns: seq<Turn>): seq<Moment>
  {
    if turns == [] then []
    else
      var front, last := turns[..|turns| - 1], turns[|turns| - 1];
      Moments(me, start, front)
      + if last.Rotation? then [Reseed(last.newSeed)]
        else if Outgoing(me, Fetched(start, front), last).Some? then [Take(last.arrival)]
        else []
  }

  function Taken(moments: seq<Moment>): nat
  {
    if moments == [] then 0 else Taken(moments[..|moments| - 1]) + if moments[|moments| - 1].Take? then 1 else 0
  }

  /** What the session is fed with: the k-th result that is taken, unless it failed to decode. */
  function Received(results: seq<Result<IncomingTicket, WireError>>, moments: seq<Moment>): seq<Input>
  {
    if moments == [] then []
    else
      var front := moments[..|moments| - 1];
      Received(results, front)
      + match moments[|moments| - 1]
        case Reseed(newSeed) => [RotateTo(newSeed)]
        case Take(now) =>
          var k := Taken(front);
          if k < |results| && results[k].Ok? then [Arrive(results[k].value.ticket, results[k].value.signature, now)]
          else []
  }

  lemma ReceivedOneMore(results: seq<Result<IncomingTicket, WireError>>, before: seq<Moment>, m: Moment)
    requires m.Take? ==> Taken(before) < |results| && results[Taken(before)].Ok?
    ensures Taken(before + [m]) == Taken(before) + if m.Take? then 1 else 0
    ensures Received(results, before + [m])
            == Received(results, before)
               + [if m.Reseed? then RotateTo(m.newSeed)
                  else var f := results[Taken(before)].value; Arrive(f.ticket, f.signature, m.now)]
  {
    assert (before + [m])[..|before|] == before;
  }

  /** The bytes of the tickets, one frame after another. */
  function Stream(fs: seq<IncomingTicket>): bytes
  {
    Sent(seq(|fs|, i requires 0 <= i < |fs| => RawFrame(Code(TicketRequest), TicketBytes(fs[i]))))
  }

  ghost predicate FitFrames(fs: seq<IncomingTicket>)
  {
    forall i | 0 <= i < |fs| :: |fs[i].signature| + |fs[i].prompt| <= MAX_VARIABLE
  }

  lemma StreamDelivers(fs: seq<IncomingTicket>, tail: bytes)
    requires FitFrames(fs) && |tail| < HEADER_LEN
    ensures var t := ReadAll(Stream(fs) + tail);
            && t.failure == None && |t.bodies| == |fs|
            && forall i | 0 <= i < |fs| :: DecodeAll(t.bodies)[i] == Ok(fs[i])
  {
    var raw := seq(|fs|, i requires 0 <= i < |fs| => RawFrame(Code(TicketRequest), TicketBytes(fs[i])));
    BadFrameIsIsolated(raw, tail);
    forall i | 0 <= i < |fs| ensures DecodeTicketFrame(Body(raw[i].code, raw[i].payload)) == Ok(fs[i]) {
      DecodeTicketFrameIff(Body(raw[i].code, raw[i].payload), fs[i]);
    }
  }

  /** What a turn feeds the session with when nothing is lost on the way. */
  function Brings(me: Identity, fetched: u64, turn: Turn): Option<Input>
  {
    match turn
    case Rotation(newSeed) => Some(RotateTo(newSeed))
    case Sign(_, _, arrival) =>
      match Outgoing(me, fetched, turn)
      case None => None
      case Some(f) => Some(Arrive(f.ticket, f.signature, arrival))
  }

  function Inputs(me: Identity, start: u64, turns: seq<Turn>): seq<Input>
  {
    if turns == [] then []
    else
      var front := turns[..|turns| - 1];
      Inputs(me, start, front)
      + match Brings(me, Fetched(start, front), turns[|turns| - 1])
        case None => []
        case Some(i) => [i]
  }

  /** Results that begin with the tickets posted feed the session with exactly those. */
  lemma {:induction false} ReceivedIsPosted(me: Identity, start: u64, turns: seq<Turn>,
                                            results: seq<Result<IncomingTicket, WireError>>)
    requires var fs := Posted(me, start, turns);
             |fs| <= |results| && forall k | 0 <= k < |fs| :: results[k] == Ok(fs[k])
    ensures Received(results, Moments(me, start, turns)) == Inputs(me, start, turns)
    ensures Taken(Moments(me, start, turns)) == |Posted(me, start, turns)|
  {
    if turns != [] {
      var front, last := turns[..|turns| - 1], turns[|turns| - 1];
      var before := Moments(me, start, front);
      assert Posted(me, start, front) <= Posted(me, start, turns);
      ReceivedIsPosted(me, start, front, results);
      if last.Rotation? {
        ReceivedOneMore(results, before, Reseed(last.newSeed));
      } else if Outgoing(me, Fetched(start, front), last).Some? {
        assert Posted(me, start, turns)[|Posted(me, start, front)|] == Outgoing(me, Fetched(start, front), last).value;
        ReceivedOneMore(results, before, Take(last.arrival));
      } else {
        assert before + [] == before && Inputs(me, start, front) + [] == Inputs(me, start, front);
      }
    }
  }

  lemma TurnBrings(p: Peers, line: Line, turn: Turn)
    ensures TakeTurn(p, line, turn).session
            == match Brings(p.me, line.watermark, turn)
               case None => line.session
               case Some(i) => SessionStep(p.me.oracle, p.me.separator, p.client, line.session, i)
  {
  }

  lemma RunOneMore(o: Oracle, separator: Bytes32, client: Address, s: Session, before: seq<Input>, i: Input)
    ensures SessionRun(o, separator, client, s, before + [i])
            == SessionStep(o, separator, client, SessionRun(o, separator, client, s, before), i)
  {
    assert (before + [i])[..|before|] == before;
  }

  /** The conversation's session is the session of the driving loop on those inputs. */
  lemma {:induction false} TalkIsSession(p: Peers, line: Line, turns: seq<Turn>)
    requires line.watermark + |turns| < TWO_64
    ensures Talk(p, line, turns).session
            == SessionRun(p.me.oracle, p.me.separator, p.client, line.session, Inputs(p.me, line.watermark, turns))
  {
    if turns != [] {
      var front, last := turns[..|turns| - 1], turns[|turns| - 1];
      TalkIsSession(p, line, front);
      CounterCounts(p, line, front);
      TurnBrings(p, Talk(p, line, front), last);
      match Brings(p.me, Fetched(line.watermark, front), last)
      case None => assert Inputs(p.me, line.watermark, front) + [] == Inputs(p.me, line.watermark, front);
      case Some(i) =>
        RunOneMore(p.me.oracle, p.me.separator, p.client, line.session, Inputs(p.me, line.watermark, front), i);
    }
  }

  // ------------------------------------------------------------------------- the money

  /** What the provider's claims need to know about a ticket apart from the session. */
  ghost predicate Claimable(env: Env, id: Bytes32, start: u64, last: nat, t: Ticket, signature: bytes)
  {
    && t.channelId == id && ProperOdds(t) && env.oracle.chainAccepts(signature)
    && start < t.nonce <= last
  }

  /** The client asks for proper odds, and its key makes signatures that the contract accepts. */
  ghost predicate ProperRequest(env: Env, turn: Turn)
  {
    turn.Sign? ==>
      && 0 < turn.request.pricing.winProbNumerator < turn.request.pricing.winProbDenominator
      && forall digest: Bytes32 | turn.request.key(digest).Some? ::
           env.oracle.chainAccepts(turn.request.key(digest).value)
  }

  lemma TicketFields(me: Identity, fetched: u64, request: Request)
    requires CanSign(me, fetched, request)
    ensures var t := Narrow(SignTicket(me, fetched, request).value.payload);
            && t.channelId == me.channelId && t.nonce == NextNonce(fetched)
            && t.winProbNumerator == request.pricing.winProbNumerator
            && t.winProbDenominator == request.pricing.winProbDenominator
  {
  }

  lemma SignatureFromKey(env: Env, me: Identity, fetched: u64, request: Request)
    requires CanSign(me, fetched, request)
    requires forall digest: Bytes32 | request.key(digest).Some? :: env.oracle.chainAccepts(request.key(digest).value)
    ensures env.oracle.chainAccepts(SignTicket(me, fetched, request).value.signature)
  {
    var s := SignTicket(me, fetched, request).value;
    assert request.key(ChainDigest(me.oracle, me.separator, Narrow(s.payload))) == Some(s.signature);
  }

  lemma {:induction false} FetchedIs(start: u64, turns: seq<Turn>)
    requires start + |turns| < TWO_64
    ensures Calls(turns) <= |turns| && Fetched(start, turns) == start + Calls(turns)
  {
    if turns != [] {
      FetchedIs(start, turns[..|turns| - 1]);
    }
  }

  lemma BringsClaimable(env: Env, me: Identity, start: u64, last: nat, fetched: u64, turn: Turn)
    requires start <= fetched < last < TWO_64 && ProperRequest(env, turn)
    ensures var input := Brings(me, fetched, turn);
            input.Some? && input.value.Arrive? ==>
              Claimable(env, me.channelId, start, last, input.value.t, input.value.signature)
  {
    if turn.Sign? && CanSign(me, fetched, turn.request) {
      TicketFields(me, fetched, turn.request);
      SignatureFromKey(env, me, fetched, turn.request);
    }
  }

  lemma InputsOneMore(me: Identity, start: u64, turns: seq<Turn>, n: nat)
    requires n < |turns|
    ensures var before, input := Inputs(me, start, turns[..n]), Brings(me, Fetched(start, turns[..n]), turns[n]);
            Inputs(me, start, turns[..n + 1]) == if input.Some? then before + [input.value] else before
  {
    assert turns[..n + 1][..n] == turns[..n];
  }

  ghost predicate AllClaimable(env: Env, id: Bytes32, start: u64, last: nat, inputs: seq<Input>)
  {
    forall i | i in inputs && i.Arrive? :: Claimable(env, id, start, last, i.t, i.signature)
  }

  lemma {:induction false} InputsClaimable(env: Env, me: Identity, start: u64, turns: seq<Turn>, n: nat)
    requires start + |turns| < TWO_64 && n <= |turns|
    requires forall turn | turn in turns :: ProperRequest(env, turn)
    ensures AllClaimable(env, me.channelId, start, start + |turns|, Inputs(me, start, turns[..n]))
  {
    if n > 0 {
      InputsClaimable(env, me, start, turns, n - 1);
      InputsOneMore(me, start, turns, n - 1);
      FetchedIs(start, turns[..n - 1]);
      assert turns[n - 1] in turns;
      BringsClaimable(env, me, start, start + |turns|, Fetched(start, turns[..n - 1]), turns[n - 1]);
    }
  }

  /** The session invents nothing: what is queued has arrived. */
  lemma {:induction false} QueueArrived(o: Oracle, separator: Bytes32, client: Address, s: Session, inputs: seq<Input>,
                                        k: nat)
    requires s.queue == [] && k < |SessionRun(o, separator, client, s, inputs).queue|
    ensures var task := SessionRun(o, separator, client, s, inputs).queue[k];
            exists j :: 0 <= j < |inputs| && inputs[j].Arrive?
                        && inputs[j].t == task.ticket && inputs[j].signature == task.signature
  {
    assert inputs != [];
    var front, last := inputs[..|inputs| - 1], inputs[|inputs| - 1];
    if k < |SessionRun(o, separator, client, s, front).queue| {
      QueueArrived(o, separator, client, s, front, k);
      var task := SessionRun(o, separator, client, s, front).queue[k];
      var j :| && 0 <= j < |front| && front[j].Arrive?
               && front[j].t == task.ticket && front[j].signature == task.signature;
      assert inputs[j] == front[j];
    } else {
      assert last.Arrive?;
    }
  }

  /** A client with a channel that covers the wins of a conversation, and with unused nonces; a
      provider whose claims come from those wins, in order and in time; and anybody else doing
      anything in between. */
  ghost predicate PipelinePremises(env: Env, genesis: State, past: seq<Call>, calls: seq<Call>, t0: nat,
                                   p: Peers, line: Line, turns: seq<Turn>)
  {
    var st, id, provider := Run(env, genesis, past), p.me.channelId, p.me.provider;
    var queue := Talk(p, line, turns).session.queue;
    && p.me.oracle == env.oracle && p.me.separator == env.separator
    && Deployed(env, genesis) && (forall c | c in past :: Valid(env, c))
    && line.watermark + |turns| < TWO_64 && line.session.queue == []
    && line.session.gate.commitment == env.oracle.keccak(line.session.gate.seed)
    && id in st.channels && st.channels[id].client == p.client && st.channels[id].provider == provider
    && FaceSum(queue) <= st.channels[id].balance
    && (forall turn | turn in turns :: ProperRequest(env, turn))
    && (forall nonce: u64 | line.watermark < nonce <= line.watermark + |turns| ::
          Nullifier(env.oracle, id, nonce) !in st.nullifiers)
    && Schedule(env, st, calls, t0, provider, id, queue)
  }

  lemma PipelineSettles(env: Env, genesis: State, past: seq<Call>, calls: seq<Call>, t0: nat,
                        p: Peers, line: Line, turns: seq<Turn>)
    requires PipelinePremises(env, genesis, past, calls, t0, p, line, turns)
    ensures SettlementPremises(env, genesis, past, calls, t0, p.me.provider, p.client, p.me.channelId, line.session,
                               Inputs(p.me, line.watermark, turns))
  {
    var inputs, queue := Inputs(p.me, line.watermark, turns), Talk(p, line, turns).session.queue;
    TalkIsSession(p, line, turns);
    assert turns[..|turns|] == turns;
    InputsClaimable(env, p.me, line.watermark, turns, |turns|);
    forall k | 0 <= k < |queue|
      ensures Claimable(env, p.me.channelId, line.watermark, line.watermark + |turns|, queue[k].ticket,
                        queue[k].signature)
    {
      QueueArrived(env.oracle, env.separator, p.client, line.session, inputs, k);
    }
  }

  /** Over the wire or not, the provider's session is fed with the same tickets. */
  lemma WireFeedsSession(me: Identity, start: u64, turns: seq<Turn>, tail: bytes)
    requires FitFrames(Posted(me, start, turns)) && |tail| < HEADER_LEN
    ensures var wire := ReadAll(Stream(Posted(me, start, turns)) + tail);
            && wire.failure == None
            && Received(DecodeAll(wire.bodies), Moments(me, start, turns)) == Inputs(me, start, turns)
  {
    var fs := Posted(me, start, turns);
    StreamDelivers(fs, tail);
    ReceivedIsPosted(me, start, turns, DecodeAll(ReadAll(Stream(fs) + tail).bodies));
  }

  /** From the client's key to the provider's money: the tickets that a client signs one after
      another, sent as frames before any broken-off tail, are read and decoded by the provider
      and feed its session as if they had been handed over; and every one of them that wins and
      is claimed in order and in time brings the provider its face value. */
  lemma FromKeyToMoney(env: Env, genesis: State, past: seq<Call>, calls: seq<Call>, t0: nat,
                       p: Peers, line: Line, turns: seq<Turn>, tail: bytes)
    requires PipelinePremises(env, genesis, past, calls, t0, p, line, turns)
    requires FitFrames(Posted(p.me, line.watermark, turns)) && |tail| < HEADER_LEN
    ensures var wire := ReadAll(Stream(Posted(p.me, line.watermark, turns)) + tail);
            var inputs := Received(DecodeAll(wire.bodies), Moments(p.me, line.watermark, turns));
            var session := SessionRun(env.oracle, env.separator, p.client, line.session, inputs);
            && wire.failure == None
            && session == Talk(p, line, turns).session
            && QueuePaid(env, Run(env, genesis, past), calls, p.me.provider, p.me.channelId, session.queue)
  {
    WireFeedsSession(p.me, line.watermark, turns, tail);
    TalkIsSession(p, line, turns);
    PipelineSettles(env, genesis, past, calls, t0, p, line, turns);
    EndToEndSettlement(env, genesis, past, calls, t0, p.me.provider, p.client, p.me.channelId, line.session,
                       Inputs(p.me, line.watermark, turns));
  }
}
