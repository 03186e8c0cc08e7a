/** The variance and governor audit: a loop that signs one ticket after another, drives the
    gatekeeper with it, and tracks wins, dry spells and governor trips as it goes. */
module Audit {
  import opened Bytes
  import opened Abi
  import opened Eip712
  import opened Verifier
  import opened Governor
  import opened Escrow
  import opened Codec
  import opened Signer
  import opened Settlement

  const TICKET_LIFETIME := 86400

  /** What stays fixed over the audit. `sign` is the client's key. */
  datatype Config = Config(
    oracle: Oracle, providerAddress: Address, contractAddress: Address, chainId: u64,
    client: Address, sign: Bytes32 -> bytes,
    numerator: u32, denominator: u32, faceValue: u128, firstSeed: Bytes32)

  /** What one iteration draws and reads: the client's seed, the clock when the ticket is made
      and again when it is verified, and the seed to rotate to if it wins. */
  datatype Round = Round(clientSeed: Bytes32, now: u64, verifiedAt: Option<u64>, nextSeed: Bytes32)

  function Separator(cfg: Config): Bytes32 {
    DomainSeparator(cfg.oracle, cfg.chainId, cfg.contractAddress)
  }

  /** The ticket of one iteration. */
  function AuditTicket(cfg: Config, commitment: Bytes32, nonce: u64, r: Round): Ticket
    requires r.now + TICKET_LIFETIME < TWO_64
  {
    Ticket(cfg.oracle.keccak(cfg.client + cfg.providerAddress), cfg.providerAddress, nonce, cfg.faceValue,
           cfg.numerator, cfg.denominator, r.now + TICKET_LIFETIME, r.clientSeed, commitment)
  }

  /** The clocks do not overflow, and each ticket is verified before it expires. */
  ghost predicate Timely(rounds: seq<Round>)
  {
    forall r | r in rounds ::
      && r.now + TICKET_LIFETIME < TWO_64
      && r.verifiedAt.Some? && r.verifiedAt.value < r.now + TICKET_LIFETIME
  }

  ghost predicate SignsCorrectly(cfg: Config)
  {
    forall digest: Bytes32 :: SignedBy(cfg.oracle, digest, cfg.sign(digest), cfg.client)
  }

  /** The draws alone: the secret held after the rounds, and the outcome of each of them. */
  ghost function Outcomes(cfg: Config, rounds: seq<Round>): (r: (Bytes32, seq<bool>))
    requires |rounds| < TWO_64 && Timely(rounds)
    ensures |r.1| == |rounds|
  {
    if rounds == [] then (cfg.firstSeed, [])
    else
      var (seed, wins) := Outcomes(cfg, rounds[..|rounds| - 1]);
      var last := rounds[|rounds| - 1];
      var win := Winning(cfg.oracle, Separator(cfg), seed, AuditTicket(cfg, cfg.oracle.keccak(seed), |rounds|, last));
      (if win then last.nextSeed else seed, wins + [win])
  }

  /** A correctly signed, timely ticket with the next nonce and the held commitment is never
      rejected: it is served or claimed by its draw. */
  lemma NeverRejected(cfg: Config, seed: Bytes32, nonce: u64, r: Round)
    requires SignsCorrectly(cfg) && Timely([r]) && nonce > 0
    requires r.now + TICKET_LIFETIME < TWO_64
    ensures var t := AuditTicket(cfg, cfg.oracle.keccak(seed), nonce, r);
            var s := SeedState(seed, cfg.oracle.keccak(seed), false);
            Decide(cfg.oracle, Separator(cfg), s, t, cfg.sign(ChainDigest(cfg.oracle, Separator(cfg), t)),
                   cfg.client, nonce - 1, r.verifiedAt)
            == if Winning(cfg.oracle, Separator(cfg), seed, t) then ClaimAndRotateWinning else ServeLosing
  {
    assert r in [r];
    var t := AuditTicket(cfg, cfg.oracle.keccak(seed), nonce, r);
    var digest := ChainDigest(cfg.oracle, Separator(cfg), t);
    assert SignedBy(cfg.oracle, digest, cfg.sign(digest), cfg.client);
  }

  lemma OutcomesStep(cfg: Config, rounds: seq<Round>, i: nat)
    requires |rounds| < TWO_64 && Timely(rounds) && i < |rounds|
    ensures Timely(rounds[..i]) && Timely(rounds[..i + 1]) && Timely([rounds[i]])
    ensures rounds[i].now + TICKET_LIFETIME < TWO_64
    ensures var (seed, wins) := Outcomes(cfg, rounds[..i]);
            var t := AuditTicket(cfg, cfg.oracle.keccak(seed), i + 1, rounds[i]);
            var win := Winning(cfg.oracle, Separator(cfg), seed, t);
            Outcomes(cfg, rounds[..i + 1]) == (if win then rounds[i].nextSeed else seed, wins + [win])
  {
    forall r | r in rounds[..i + 1] ensures r in rounds {
    }
    forall r | r in rounds[..i] ensures r in rounds {
    }
    assert rounds[i] in rounds;
    assert rounds[..i + 1][..i] == rounds[..i];
  }

  /** The sliding window that the loop keeps after the outcomes w. */
  function WindowOf(w: seq<bool>): seq<bool> {
    w[WindowStart(TripsOf(w).since, |w|)..|w|]
  }

  /** The tracked window after one more outcome, before the trip test: the oldest ticket of a
      full window drops out. */
  function Slide(window: seq<bool>, win: bool): seq<bool> {
    (if |window| == WINDOW then window[1..] else window) + [win]
  }

  // No induction on the window: the recount is split by hand.
  lemma {:induction false} SlideWins(window: seq<bool>, win: bool)
    ensures Wins(Slide(window, win))
            == Wins(window) - (if |window| == WINDOW && window[0] then 1 else 0) + (if win then 1 else 0)
  {
    var kept := if |window| == WINDOW then window[1..] else window;
    assert (kept + [win])[..|kept|] == kept;
    if |window| == WINDOW {
      WinsSplit([window[0]], window[1..]);
      assert window == [window[0]] + window[1..];
    }
  }

  /** Sliding the tracked window is recounting from the history. */
  lemma {:induction false} WindowStep(w: seq<bool>, win: bool)
    ensures |WindowOf(w)| <= WINDOW
    ensures var window := Slide(WindowOf(w), win);
            if Wins(window) >= 2 then TripsOf(w + [win]) == Trips(TripsOf(w).count + 1, |w| + 1)
                && WindowOf(w + [win]) == []
            else TripsOf(w + [win]) == TripsOf(w) && WindowOf(w + [win]) == window
  {
    assert (w + [win])[..|w|] == w;
    var start, shown := WindowStart(TripsOf(w).since, |w| + 1), WindowStart(TripsOf(w).since, |w|);
    assert |w| - shown == WINDOW ==> start == shown + 1 && w[shown..|w|][1..] == w[start..|w|];
    assert Slide(WindowOf(w), win) == w[start..|w|] + [win];
    assert (w + [win])[start..|w| + 1] == w[start..|w|] + [win];
  }

  /** What one more outcome does to the recounted totals. */
  lemma RecountStep(w: seq<bool>, win: bool)
    ensures Wins(w + [win]) == Wins(w) + if win then 1 else 0
    ensures TrailingLosses(w + [win]) == if win then 0 else TrailingLosses(w) + 1
    ensures LongestDrySpell(w + [win])
            == if !win && TrailingLosses(w) + 1 > LongestDrySpell(w) then TrailingLosses(w) + 1 else LongestDrySpell(w)
  {
    assert (w + [win])[..|w|] == w;
  }

  /** The tracker's part of an iteration on the sliding window. */
  method TrackWindow(window: seq<bool>, windowWins: nat, triggers: nat, isWin: bool, ghost w: seq<bool>)
    returns (window': seq<bool>, windowWins': nat, triggers': nat)
    requires window == WindowOf(w) && windowWins == Wins(window) <= 1 && triggers == TripsOf(w).count
    ensures window' == WindowOf(w + [isWin]) && windowWins' == Wins(window') <= 1
        && triggers' == TripsOf(w + [isWin]).count
  {
    WindowStep(w, isWin);
    SlideWins(window, isWin);
    window', windowWins', triggers' := window, windowWins, triggers;
    if |window'| == WINDOW {
      var oldest := window'[0];
      window' := window'[1..];
      if oldest {
        windowWins' := windowWins' - 1;
      }
    }
    window' := window' + [isWin];
    if isWin {
      windowWins' := windowWins' + 1;
    }
    if windowWins' >= 2 {
      triggers' := triggers' + 1;
      window' := [];
      windowWins' := 0;
    }
  }

  /** The tracker's part of an iteration on the totals and the dry spell. */
  method TrackSpell(wins: nat, losses: nat, current: nat, longest: nat, isWin: bool, ghost w: seq<bool>)
    returns (wins': nat, losses': nat, current': nat, longest': nat)
    requires wins == Wins(w) && current == TrailingLosses(w) && longest == LongestDrySpell(w)
    ensures wins' == Wins(w + [isWin]) && wins' + losses' == wins + losses + 1
    ensures current' == TrailingLosses(w + [isWin]) && longest' == LongestDrySpell(w + [isWin])
  {
    RecountStep(w, isWin);
    wins', losses', current', longest' := wins, losses, current, longest;
    if isWin {
      wins' := wins' + 1;
      current' := 0;
    } else {
      losses' := losses' + 1;
      current' := current' + 1;
      if current' > longest' {
        longest' := current';
      }
    }
  }

  /** The gatekeeper's part of an iteration: sign the next ticket, have it judged, and rotate
      the seed if it wins. The rejection panic is unreachable. */
  method PlayRound(cfg: Config, verifier: TicketVerifier, nonce: u64, r: Round) returns (isWin: bool)
    requires SignsCorrectly(cfg) && Timely([r]) && nonce > 0 && r.now + TICKET_LIFETIME < TWO_64
    requires verifier.oracle == cfg.oracle && verifier.domainSeparator == Separator(cfg)
    requires verifier.State() == SeedState(verifier.providerSeed, cfg.oracle.keccak(verifier.providerSeed), false)
    modifies verifier
    ensures isWin == Winning(cfg.oracle, Separator(cfg), old(verifier.providerSeed),
                             AuditTicket(cfg, cfg.oracle.keccak(old(verifier.providerSeed)), nonce, r))
    ensures verifier.providerSeed == if isWin then r.nextSeed else old(verifier.providerSeed)
    ensures verifier.State() == SeedState(verifier.providerSeed, cfg.oracle.keccak(verifier.providerSeed), false)
  {
    var t := AuditTicket(cfg, verifier.providerCommitment, nonce, r);
    var signature := cfg.sign(SigningHash(cfg.oracle, verifier.domainSeparator, t));
    DigestsAgree(cfg.oracle, verifier.domainSeparator, t);
    NeverRejected(cfg, verifier.providerSeed, nonce, r);
    var decision := verifier.EvaluateAndGate(t, signature, cfg.client, nonce - 1, r.verifiedAt);
    match decision {
      case ClaimAndRotateWinning =>
        verifier.RotateSeed(r.nextSeed);
        isWin := true;
      case ServeLosing =>
        isWin := false;
      case Reject(_) =>
        assert false;
    }
  }

  /** The loop's running figures. */
  datatype Tally = Tally(
    totalWins: nat, totalLosses: nat, currentDrySpell: nat, maxDrySpell: nat,
    slidingWindow: seq<bool>, windowWins: nat, governorTriggers: nat)

  /** Every running figure is what a recount over the history gives. */
  ghost predicate Tracks(y: Tally, w: seq<bool>)
  {
    && y.totalWins == Wins(w) && y.totalWins + y.totalLosses == |w|
    && y.currentDrySpell == TrailingLosses(w) && y.maxDrySpell == LongestDrySpell(w)
    && y.slidingWindow == WindowOf(w) && y.windowWins == Wins(y.slidingWindow) <= 1
    && y.governorTriggers == TripsOf(w).count
  }

  /** The tracking half of an iteration. */
  method Track(y: Tally, isWin: bool, ghost w: seq<bool>) returns (y': Tally)
    requires Tracks(y, w)
    ensures Tracks(y', w + [isWin])
  {
    var wins, losses, spell, longest :=
      TrackSpell(y.totalWins, y.totalLosses, y.currentDrySpell, y.maxDrySpell, isWin, w);
    var window, windowWins, triggers := TrackWindow(y.slidingWindow, y.windowWins, y.governorTriggers, isWin, w);
    y' := Tally(wins, losses, spell, longest, window, windowWins, triggers);
  }

  /** The audit. It never reaches the rejection panic, and every figure it tracks step by step
      is what a recount over the whole history gives. */
  method RunVarianceAndGovernorAudit(cfg: Config, rounds: seq<Round>) returns (y: Tally)
    requires |rounds| < TWO_64 && Timely(rounds) && SignsCorrectly(cfg)
    ensures Tracks(y, Outcomes(cfg, rounds).1)
  {
    var verifier :=
      new TicketVerifier(cfg.oracle, cfg.providerAddress, cfg.contractAddress, cfg.chainId, cfg.firstSeed);
    y := Tally(0, 0, 0, 0, [], 0, 0);
    assert rounds[..0] == [];
    for i := 0 to |rounds|
      invariant fresh(verifier) && verifier.oracle == cfg.oracle && verifier.domainSeparator == Separator(cfg)
      invariant Timely(rounds[..i])
      invariant verifier.providerSeed == Outcomes(cfg, rounds[..i]).0
      invariant verifier.State() == SeedState(verifier.providerSeed, cfg.oracle.keccak(verifier.providerSeed), false)
      invariant Tracks(y, Outcomes(cfg, rounds[..i]).1)
    {
      OutcomesStep(cfg, rounds, i);
      var isWin := PlayRound(cfg, verifier, i + 1, rounds[i]);
      y := Track(y, isWin, Outcomes(cfg, rounds[..i]).1);
    }
    assert rounds[..|rounds|] == rounds;
  }

  /** The trips are the size of the largest packing of disjoint fifty-ticket stretches with two
      wins each. */
  lemma TripsAreLargestPacking(w: seq<bool>)
    ensures exists spans :: Packing(w, spans) && |spans| == TripsOf(w).count
    ensures forall spans :: Packing(w, spans) ==> |spans| <= TripsOf(w).count
  {
    var best := GovernorAttains(w);
    forall spans | Packing(w, spans) ensures |spans| <= TripsOf(w).count {
      GovernorOptimal(w, spans);
    }
  }

  lemma SpellIsLongest(w: seq<bool>)
    ensures exists s :: Dry(w, s) && s.hi - s.lo == LongestDrySpell(w)
    ensures forall s :: Dry(w, s) ==> s.hi - s.lo <= LongestDrySpell(w)
  {
    var best := LongestDrySpellIsMaximum(w);
  }

  /** What the reported figures mean: the trips are the most that any packing of disjoint
      fifty-ticket stretches with two wins allows, the dry spell is the longest there was. */
  lemma ReportIsExact(cfg: Config, rounds: seq<Round>, y: Tally)
    requires |rounds| < TWO_64 && Timely(rounds)
    requires Tracks(y, Outcomes(cfg, rounds).1)
    ensures var w := Outcomes(cfg, rounds).1;
            && y.totalWins + y.totalLosses == |rounds|
            && (exists spans :: Packing(w, spans) && |spans| == y.governorTriggers)
            && (forall spans :: Packing(w, spans) ==> |spans| <= y.governorTriggers)
            && (exists s :: Dry(w, s) && s.hi - s.lo == y.maxDrySpell)
            && (forall s :: Dry(w, s) ==> s.hi - s.lo <= y.maxDrySpell)
  {
    var w := Outcomes(cfg, rounds).1;
    TripsAreLargestPacking(w);
    SpellIsLongest(w);
  }

  // --------------------------------------------------------------- the other two programs

  /** The client's signer on the audit's channel, and what an iteration asks of it. */
  function AuditSigner(cfg: Config, build: Build): Identity {
    Identity(cfg.oracle, Separator(cfg), ChannelId(cfg.oracle, cfg.client, cfg.providerAddress), cfg.providerAddress,
             build)
  }

  function AuditRequest(cfg: Config, commitment: Bytes32, r: Round): Request {
    Request(commitment, PricingConfig(cfg.faceValue, cfg.numerator, cfg.denominator, 86400), r.clientSeed, Some(r.now),
            digest => Some(cfg.sign(digest)))
  }

  /** The ticket of an iteration is the one that the client's signer would return on this channel
      for this pricing. */
  lemma AuditTicketIsSigned(cfg: Config, commitment: Bytes32, nonce: u64, r: Round, build: Build)
    requires nonce > 0 && r.now + TICKET_LIFETIME < TWO_64
    ensures var signed := SignTicket(AuditSigner(cfg, build), nonce - 1, AuditRequest(cfg, commitment, r));
            signed.Ok? && Narrow(signed.value.payload) == AuditTicket(cfg, commitment, nonce, r)
  {
    assert CanSign(AuditSigner(cfg, build), nonce - 1, AuditRequest(cfg, commitment, r));
    TicketIsAsRequested(AuditSigner(cfg, build), nonce - 1, AuditRequest(cfg, commitment, r));
  }

  /** And so is the signature. */
  lemma AuditSignatureIsSigned(cfg: Config, commitment: Bytes32, nonce: u64, r: Round, build: Build)
    requires nonce > 0 && r.now + TICKET_LIFETIME < TWO_64
    ensures var signed := SignTicket(AuditSigner(cfg, build), nonce - 1, AuditRequest(cfg, commitment, r));
            && signed.Ok?
            && signed.value.signature
               == cfg.sign(ChainDigest(cfg.oracle, Separator(cfg), AuditTicket(cfg, commitment, nonce, r)))
  {
    AuditTicketIsSigned(cfg, commitment, nonce, r, build);
  }

  /** The rounds as a session of the driving loop, rotated after each win that it queues. */
  ghost function AuditSession(cfg: Config, rounds: seq<Round>): Session
    requires |rounds| < TWO_64 && Timely(rounds)
  {
    if rounds == [] then Session(SeedState(cfg.firstSeed, cfg.oracle.keccak(cfg.firstSeed), false), 0, [])
    else
      var mid, last := AuditSession(cfg, rounds[..|rounds| - 1]), rounds[|rounds| - 1];
      AuditTurn(cfg, mid, |rounds|, last)
  }

  ghost function AuditTurn(cfg: Config, mid: Session, nonce: u64, r: Round): Session
    requires r.now + TICKET_LIFETIME < TWO_64
  {
    var t := AuditTicket(cfg, mid.gate.commitment, nonce, r);
    Exchange(cfg, mid, t, cfg.sign(ChainDigest(cfg.oracle, Separator(cfg), t)), r)
  }

  /** A ticket goes to the session, and a rotation after it if it was queued. */
  ghost function Exchange(cfg: Config, mid: Session, t: Ticket, signature: bytes, r: Round): Session
  {
    var after := SessionStep(cfg.oracle, Separator(cfg), cfg.client, mid, Arrive(t, signature, r.verifiedAt));
    if |after.queue| > |mid.queue|
    then SessionStep(cfg.oracle, Separator(cfg), cfg.client, after, RotateTo(r.nextSeed))
    else after
  }

  /** The audit plays the driving loop: each of its wins is a queued claim, each of its tickets
      moves the watermark, and the gate always stands open on the last secret drawn. */
  lemma {:induction false} AuditIsSession(cfg: Config, rounds: seq<Round>)
    requires |rounds| < TWO_64 && Timely(rounds) && SignsCorrectly(cfg)
    ensures var s, (seed, wins) := AuditSession(cfg, rounds), Outcomes(cfg, rounds);
            && s.gate == SeedState(seed, cfg.oracle.keccak(seed), false)
            && s.lastNonce == |rounds| && |s.queue| == Wins(wins)
  {
    if rounds != [] {
      var front, last := rounds[..|rounds| - 1], rounds[|rounds| - 1];
      assert last in rounds;
      forall r | r in front ensures r in rounds {
      }
      AuditIsSession(cfg, front);
      AuditTurnPlays(cfg, AuditSession(cfg, front), |rounds|, last);
      RecountStep(Outcomes(cfg, front).1,
                  Winning(cfg.oracle, Separator(cfg), Outcomes(cfg, front).0,
                          AuditTicket(cfg, cfg.oracle.keccak(Outcomes(cfg, front).0), |rounds|, last)));
    }
  }

  lemma AuditTurnPlays(cfg: Config, mid: Session, nonce: u64, r: Round)
    requires SignsCorrectly(cfg) && Timely([r]) && r.now + TICKET_LIFETIME < TWO_64
    requires mid.gate == SeedState(mid.gate.seed, cfg.oracle.keccak(mid.gate.seed), false)
    requires mid.lastNonce + 1 == nonce
    ensures var t := AuditTicket(cfg, mid.gate.commitment, nonce, r);
            var signature := cfg.sign(ChainDigest(cfg.oracle, Separator(cfg), t));
            AuditTurn(cfg, mid, nonce, r)
            == Played(cfg, mid, t, signature, r, Winning(cfg.oracle, Separator(cfg), mid.gate.seed, t))
  {
    var t := AuditTicket(cfg, mid.gate.commitment, nonce, r);
    NeverRejected(cfg, mid.gate.seed, nonce, r);
    ExchangeByDraw(cfg, mid, t, cfg.sign(ChainDigest(cfg.oracle, Separator(cfg), t)), r,
                   Winning(cfg.oracle, Separator(cfg), mid.gate.seed, t));
  }

  /** What a win and what a loss leave behind. */
  ghost function Played(cfg: Config, mid: Session, t: Ticket, signature: bytes, r: Round, win: bool): Session
  {
    if win then
      Session(SeedState(r.nextSeed, cfg.oracle.keccak(r.nextSeed), false), t.nonce,
              mid.queue + [ClaimTask(t, signature, mid.gate.seed)])
    else Session(mid.gate, t.nonce, mid.queue)
  }

  lemma ExchangeByDraw(cfg: Config, mid: Session, t: Ticket, signature: bytes, r: Round, win: bool)
    requires !mid.gate.invalidated
    requires Decide(cfg.oracle, Separator(cfg), mid.gate, t, signature, cfg.client, mid.lastNonce, r.verifiedAt)
             == if win then ClaimAndRotateWinning else ServeLosing
    ensures Exchange(cfg, mid, t, signature, r) == Played(cfg, mid, t, signature, r, win)
  {
    StepByDraw(cfg.oracle, Separator(cfg), cfg.client, mid, t, signature, r.verifiedAt, win);
    var after := SessionStep(cfg.oracle, Separator(cfg), cfg.client, mid, Arrive(t, signature, r.verifiedAt));
    RotationStep(cfg.oracle, Separator(cfg), cfg.client, after, r.nextSeed);
  }
}
