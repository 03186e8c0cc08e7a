/** From the gatekeeper's decisions to the provider's money: the session that queues winning
    tickets, and the claims that the settlement worker makes of them on-chain. */
module Settlement {
  import opened Bytes
  import opened Abi
  import opened Eip712
  import opened Threshold
  import opened Erc20
  import opened Verifier
  import opened Escrow
  import opened Runs
  import opened Channels

  /** A queued win: the ticket, its signature, and the secret held when it won. */
  datatype ClaimTask = ClaimTask(ticket: Ticket, signature: bytes, providerSeed: Bytes32)

  // ------------------------------------------------------------------------- the session

  datatype Session = Session(gate: SeedState, lastNonce: u64, queue: seq<ClaimTask>)

  datatype Input =
    | Arrive(t: Ticket, signature: bytes, now: Option<u64>)
    | RotateTo(newSeed: Bytes32)

  /** The driving loop of a session: a served or winning ticket advances the watermark, a
      winning one is queued; rotations may come at any time. */
  function SessionStep(o: Oracle, separator: Bytes32, client: Address, s: Session, i: Input): Session
  {
    match i
    case RotateTo(newSeed) => s.(gate := SeedState(newSeed, o.keccak(newSeed), false))
    case Arrive(t, signature, now) =>
      match Decide(o, separator, s.gate, t, signature, client, s.lastNonce, now)
      case ServeLosing => s.(lastNonce := t.nonce)
      case ClaimAndRotateWinning =>
        Session(s.gate.(invalidated := true), t.nonce, s.queue + [ClaimTask(t, signature, s.gate.seed)])
      case Reject(_) => s
  }

  function SessionRun(o: Oracle, separator: Bytes32, client: Address, s: Session, inputs: seq<Input>): Session
  {
    if inputs == [] then s
    else
      SessionStep(o, separator, client, SessionRun(o, separator, client, s, inputs[..|inputs| - 1]),
                  inputs[|inputs| - 1])
  }

  /** What each decision does to the session. */
  lemma StepByDecision(o: Oracle, separator: Bytes32, client: Address, s: Session, t: Ticket, signature: bytes,
                       now: Option<u64>)
    ensures var d, s' := Decide(o, separator, s.gate, t, signature, client, s.lastNonce, now),
                         SessionStep(o, separator, client, s, Arrive(t, signature, now));
            && s'.lastNonce == (if d.Reject? then s.lastNonce else t.nonce)
            && s'.queue == s.queue + (if d == ClaimAndRotateWinning then [ClaimTask(t, signature, s.gate.seed)] else [])
            && s'.gate == s.gate.(invalidated := s.gate.invalidated || d == ClaimAndRotateWinning)
  {
  }

  lemma StepByDraw(o: Oracle, separator: Bytes32, client: Address, s: Session, t: Ticket, signature: bytes,
                   now: Option<u64>, win: bool)
    requires Decide(o, separator, s.gate, t, signature, client, s.lastNonce, now)
             == if win then ClaimAndRotateWinning else ServeLosing
    ensures SessionStep(o, separator, client, s, Arrive(t, signature, now))
            == Session(s.gate.(invalidated := s.gate.invalidated || win), t.nonce,
                       s.queue + if win then [ClaimTask(t, signature, s.gate.seed)] else [])
  {
    StepByDecision(o, separator, client, s, t, signature, now);
  }

  lemma RotationStep(o: Oracle, separator: Bytes32, client: Address, s: Session, newSeed: Bytes32)
    ensures SessionStep(o, separator, client, s, RotateTo(newSeed))
            == Session(SeedState(newSeed, o.keccak(newSeed), false), s.lastNonce, s.queue)
  {
  }

  /** The session's calls on its gatekeeper. */
  function GateCalls(o: Oracle, separator: Bytes32, client: Address, s: Session, inputs: seq<Input>)
    : (events: seq<Event>)
    ensures |events| == |inputs|
  {
    if inputs == [] then []
    else
      var front, last := inputs[..|inputs| - 1], inputs[|inputs| - 1];
      GateCalls(o, separator, client, s, front)
      + match last
        case Arrive(t, signature, now) =>
          [Present(t, signature, client, SessionRun(o, separator, client, s, front).lastNonce, now)]
        case RotateTo(newSeed) => [Rotate(newSeed)]
  }

  lemma AfterOneMore(o: Oracle, separator: Bytes32, s: SeedState, events: seq<Event>, e: Event)
    ensures After(o, separator, s, events + [e]) == Next(o, separator, After(o, separator, s, events), e)
  {
    assert (events + [e])[..|events|] == events;
  }

  /** The loop's seed state is that of the gatekeeper after those calls, rotations included. */
  lemma {:induction false} SessionIsGatekeeper(o: Oracle, separator: Bytes32, client: Address, s: Session,
                                               inputs: seq<Input>)
    ensures SessionRun(o, separator, client, s, inputs).gate
            == After(o, separator, s.gate, GateCalls(o, separator, client, s, inputs))
  {
    if inputs != [] {
      var front, last := inputs[..|inputs| - 1], inputs[|inputs| - 1];
      var events := GateCalls(o, separator, client, s, inputs);
      SessionIsGatekeeper(o, separator, client, s, front);
      AfterOneMore(o, separator, s.gate, GateCalls(o, separator, client, s, front), events[|events| - 1]);
    }
  }

  /** A rotation reopens the gate, whatever happened before: an authentic ticket for the new seed
      is never rejected. */
  lemma RotationReopens(o: Oracle, separator: Bytes32, client: Address, s: Session, seed: Bytes32, t: Ticket,
                        signature: bytes, now: Option<u64>)
    requires Authentic(o, separator, o.keccak(seed), t, signature, client, s.lastNonce, now)
    ensures var s' := SessionStep(o, separator, client, s, RotateTo(seed));
            !Rejects(o, separator, client, s', Arrive(t, signature, now))
  {
    DecideIff(o, separator, SeedState(seed, o.keccak(seed), false), t, signature, client, s.lastNonce, now);
  }

  /** Whether the gatekeeper rejects this input. */
  predicate Rejects(o: Oracle, separator: Bytes32, client: Address, s: Session, i: Input)
  {
    i.Arrive? && Decide(o, separator, s.gate, i.t, i.signature, client, s.lastNonce, i.now).Reject?
  }

  /** The loop with its stream shut down at the first rejection: the session it ends with, and
      how many inputs it has read. */
  function HaltingRun(o: Oracle, separator: Bytes32, client: Address, s: Session, inputs: seq<Input>): (Session, nat)
    decreases |inputs|
  {
    if inputs == [] then (s, 0)
    else if Rejects(o, separator, client, s, inputs[0]) then (s, 1)
    else
      var (s', n) := HaltingRun(o, separator, client, SessionStep(o, separator, client, s, inputs[0]), inputs[1..]);
      (s', n + 1)
  }

  lemma {:induction false} RunFromFront(o: Oracle, separator: Bytes32, client: Address, s: Session, inputs: seq<Input>)
    requires inputs != []
    ensures SessionRun(o, separator, client, s, inputs)
            == SessionRun(o, separator, client, SessionStep(o, separator, client, s, inputs[0]), inputs[1..])
  {
    if |inputs| == 1 {
      assert inputs[..0] == [] && SessionRun(o, separator, client, s, []) == s;
    } else {
      var front := inputs[..|inputs| - 1];
      RunFromFront(o, separator, client, s, front);
      assert front[1..] == inputs[1..][..|inputs| - 2];
    }
  }

  /** Shutting down at a rejection only cuts the inputs short: the session is that of the inputs
      read, and whatever holds for all inputs holds for them. */
  lemma {:induction false} HaltingIsPrefix(o: Oracle, separator: Bytes32, client: Address, s: Session,
                                           inputs: seq<Input>)
    ensures var (s', n) := HaltingRun(o, separator, client, s, inputs);
            && n <= |inputs| && s' == SessionRun(o, separator, client, s, inputs[..n])
            && (n < |inputs| ==>
                  && n > 0
                  && Rejects(o, separator, client, SessionRun(o, separator, client, s, inputs[..n - 1]), inputs[n - 1]))
            && (forall k | 0 <= k < n - 1 ::
                  !Rejects(o, separator, client, SessionRun(o, separator, client, s, inputs[..k]), inputs[k]))
    decreases |inputs|
  {
    if inputs != [] {
      assert inputs[..0] == [] && SessionRun(o, separator, client, s, []) == s;
      if Rejects(o, separator, client, s, inputs[0]) {
        assert inputs[..1][..0] == [];
        assert SessionRun(o, separator, client, s, inputs[..1]) == s;
      } else {
        HaltingIsPrefix(o, separator, client, SessionStep(o, separator, client, s, inputs[0]), inputs[1..]);
        RunsFromFront(o, separator, client, s, inputs);
      }
    }
  }

  lemma RunsFromFront(o: Oracle, separator: Bytes32, client: Address, s: Session, inputs: seq<Input>)
    requires inputs != []
    ensures forall k | 0 < k <= |inputs| ::
              SessionRun(o, separator, client, s, inputs[..k])
              == SessionRun(o, separator, client, SessionStep(o, separator, client, s, inputs[0]), inputs[1..][..k - 1])
  {
    forall k | 0 < k <= |inputs|
      ensures SessionRun(o, separator, client, s, inputs[..k])
              == SessionRun(o, separator, client, SessionStep(o, separator, client, s, inputs[0]), inputs[1..][..k - 1])
    {
      RunFromFront(o, separator, client, s, inputs[..k]);
      assert inputs[..k][1..] == inputs[1..][..k - 1];
    }
  }

  /** What the gatekeeper has established about a task by the time it is queued. */
  ghost predicate TaskSound(o: Oracle, separator: Bytes32, client: Address, task: ClaimTask)
  {
    && o.keccak(task.providerSeed) == task.ticket.providerCommitment
    && SignedBy(o, ChainDigest(o, separator, task.ticket), task.signature, client)
    && Winning(o, separator, task.providerSeed, task.ticket)
  }

  ghost predicate QueueSound(o: Oracle, separator: Bytes32, client: Address, queue: seq<ClaimTask>)
  {
    && (forall k | 0 <= k < |queue| :: TaskSound(o, separator, client, queue[k]))
    && (forall a, b | 0 <= a < b < |queue| :: queue[a].ticket.nonce < queue[b].ticket.nonce)
  }

  ghost predicate SessionSound(o: Oracle, separator: Bytes32, client: Address, s: Session)
  {
    && QueueSound(o, separator, client, s.queue)
    && (forall k | 0 <= k < |s.queue| :: s.queue[k].ticket.nonce <= s.lastNonce)
    && s.gate.commitment == o.keccak(s.gate.seed)
  }

  /** Whatever arrives, the queue holds sound tasks only, with increasing nonces. */
  lemma {:induction false} SessionQueueSound(o: Oracle, separator: Bytes32, client: Address, s: Session,
                                             inputs: seq<Input>)
    requires s.queue == [] && s.gate.commitment == o.keccak(s.gate.seed)
    ensures SessionSound(o, separator, client, SessionRun(o, separator, client, s, inputs))
  {
    if inputs != [] {
      SessionQueueSound(o, separator, client, s, inputs[..|inputs| - 1]);
      StepKeepsSound(o, separator, client, SessionRun(o, separator, client, s, inputs[..|inputs| - 1]),
                     inputs[|inputs| - 1]);
    }
  }

  lemma StepKeepsSound(o: Oracle, separator: Bytes32, client: Address, s: Session, i: Input)
    requires SessionSound(o, separator, client, s)
    ensures SessionSound(o, separator, client, SessionStep(o, separator, client, s, i))
  {
    if i.Arrive? {
      DecideIff(o, separator, s.gate, i.t, i.signature, client, s.lastNonce, i.now);
    }
  }

  /** How many of the inputs were answered with the given decision. */
  function Answered(o: Oracle, separator: Bytes32, client: Address, s: Session, inputs: seq<Input>,
                    decision: GatekeeperDecision): nat
  {
    if inputs == [] then 0
    else
      var front, last := inputs[..|inputs| - 1], inputs[|inputs| - 1];
      var mid := SessionRun(o, separator, client, s, front);
      Answered(o, separator, client, s, front, decision)
      + if last.Arrive?
           && Decide(o, separator, mid.gate, last.t, last.signature, client, mid.lastNonce, last.now) == decision
        then 1 else 0
  }

  /** Nothing is lost and nothing is skipped: every win is queued, and the watermark has moved
      by one for every ticket that was served or won. */
  lemma {:induction false} SessionCounts(o: Oracle, separator: Bytes32, client: Address, s: Session, inputs: seq<Input>)
    ensures var s' := SessionRun(o, separator, client, s, inputs);
            var wins := Answered(o, separator, client, s, inputs, ClaimAndRotateWinning);
            var losses := Answered(o, separator, client, s, inputs, ServeLosing);
            |s'.queue| == |s.queue| + wins && s'.lastNonce == s.lastNonce + wins + losses
  {
    if inputs != [] {
      SessionCounts(o, separator, client, s, inputs[..|inputs| - 1]);
    }
  }

  // ------------------------------------------------------- one decision, seen on-chain

  /** The channel, the time and the signature are right for a claim of this task. */
  ghost predicate Covered(env: Env, st: State, provider: Address, client: Address, time: nat, task: ClaimTask)
  {
    var id := task.ticket.channelId;
    && id in st.channels && st.channels[id].client == client && st.channels[id].provider == provider
    && time <= task.ticket.expiry
    && task.ticket.faceValue <= st.channels[id].balance
    && env.oracle.chainAccepts(task.signature)
  }

  /** Everything a claim of this task needs apart from the draw. */
  ghost predicate Presentable(env: Env, st: State, provider: Address, client: Address, time: nat, task: ClaimTask)
  {
    && Covered(env, st, provider, client, time, task)
    && Nullifier(env.oracle, task.ticket.channelId, task.ticket.nonce) !in st.nullifiers
  }

  /** A ticket that the gatekeeper took as winning is payable exactly when the channel, which the
      gatekeeper never looks at, is there to pay it, and the clamped and the unclamped threshold
      agree: always below certain odds, at certain odds for all but the top MAX mod d + 1
      hashes, above them never. */
  lemma WinIsPayableIff(env: Env, st: State, provider: Address, client: Address, time: nat, task: ClaimTask)
    requires Inv(env, st) && TaskSound(env.oracle, env.separator, client, task)
    ensures Claim(env, st, provider, time, task.ticket, task.signature, task.providerSeed).Ok?
            <==> && Presentable(env, st, provider, client, time, task)
                 && !Disagree(task.ticket.winProbNumerator, task.ticket.winProbDenominator,
                              CombinedHash(env.oracle, ChainDigest(env.oracle, env.separator, task.ticket),
                                           task.ticket.clientSeed, task.providerSeed))
  {
    var t := task.ticket;
    ClaimSucceedsIff(env, st, provider, time, t, task.signature, task.providerSeed);
    WinTestsAgreeIff(t.winProbNumerator, t.winProbDenominator,
                     CombinedHash(env.oracle, ChainDigest(env.oracle, env.separator, t), t.clientSeed,
                                  task.providerSeed));
  }

  /** The same over a history of the escrow: the replay check stands exactly for an earlier payout
      on this channel id and nonce, by whatever session and incarnation of the channel. */
  lemma WinIsPayableOverHistory(env: Env, genesis: State, calls: seq<Call>, provider: Address, client: Address,
                                time: nat, task: ClaimTask)
    requires Deployed(env, genesis) && (forall c | c in calls :: Valid(env, c))
    requires TaskSound(env.oracle, env.separator, client, task)
    requires CollisionFree(env.oracle,
                           ClaimKeys(calls) + {NullifierKey(task.ticket.channelId, task.ticket.nonce)})
    ensures var t, st := task.ticket, Run(env, genesis, calls);
            Claim(env, st, provider, time, t, task.signature, task.providerSeed).Ok?
            <==> && Covered(env, st, provider, client, time, task)
                 && (forall k | 0 <= k < |calls| :: !Paid(env, genesis, calls, k, t.channelId, t.nonce))
                 && !Disagree(t.winProbNumerator, t.winProbDenominator,
                              CombinedHash(env.oracle, ChainDigest(env.oracle, env.separator, t), t.clientSeed,
                                           task.providerSeed))
  {
    DeployedInv(env, genesis);
    RunKeepsInv(env, genesis, calls);
    WinIsPayableIff(env, Run(env, genesis, calls), provider, client, time, task);
    ReplayCheckExact(env, genesis, calls, task.ticket.channelId, task.ticket.nonce);
  }

  /** A ticket that the gatekeeper served as losing can never be claimed, by anybody, at any
      time, in any state, with any secret whose hash does not collide with the one held. */
  lemma LosingIsNeverPayable(env: Env, st: State, s: SeedState, t: Ticket, signature: bytes, client: Address,
                             lastNonce: u64, now: Option<u64>,
                             sender: Address, time: nat, signature': bytes, seed': Bytes32)
    requires s.commitment == env.oracle.keccak(s.seed)
    requires Verdict(env.oracle, env.separator, s, t, signature, client, lastNonce, now) == ValidLosing
    requires CollisionFree(env.oracle, {s.seed, seed'})
    ensures Claim(env, st, sender, time, t, signature', seed').Err?
  {
    if env.oracle.keccak(seed') == t.providerCommitment {
      assert seed' == s.seed;
      WinTestsAgreeIff(t.winProbNumerator, t.winProbDenominator,
                       CombinedHash(env.oracle, ChainDigest(env.oracle, env.separator, t), t.clientSeed, s.seed));
    }
  }

  // --------------------------------------------------------- the whole queue, among others

  /** A claim by this provider on this channel. */
  ghost predicate Ours(c: Call, provider: Address, id: Bytes32)
  {
    c.ClaimTicket? && c.sender == provider && c.t.channelId == id
  }

  ghost function OurClaims(calls: seq<Call>, provider: Address, id: Bytes32): seq<Call>
  {
    if calls == [] then []
    else
      var last := calls[|calls| - 1];
      OurClaims(calls[..|calls| - 1], provider, id) + if Ours(last, provider, id) then [last] else []
  }

  /** Call c submits this task, no later than its ticket's expiry. */
  ghost predicate Submits(c: Call, task: ClaimTask)
  {
    && c.ClaimTicket? && c.t == task.ticket && c.signature == task.signature && c.seed == task.providerSeed
    && c.time <= task.ticket.expiry
  }

  ghost function FaceSum(queue: seq<ClaimTask>): nat
  {
    if queue == [] then 0 else FaceSum(queue[..|queue| - 1]) + queue[|queue| - 1].ticket.faceValue
  }

  /** The first moment at which the channel could be withdrawn, seen from time t0. */
  function Unlock(ch: Channel, t0: nat): nat
  {
    (if ch.closeRequestedAt == 0 then t0 else ch.closeRequestedAt) + WITHDRAWAL_DELAY
  }

  ghost predicate ProperOdds(t: Ticket)
  {
    0 < t.winProbNumerator < t.winProbDenominator
  }

  /** A channel and a queue that can be settled from state st on. */
  ghost predicate Settleable(env: Env, st: State, provider: Address, client: Address, id: Bytes32,
                             queue: seq<ClaimTask>)
  {
    && id in st.channels && st.channels[id].client == client && st.channels[id].provider == provider
    && QueueSound(env.oracle, env.separator, client, queue)
    && FaceSum(queue) <= st.channels[id].balance
    && forall k | 0 <= k < |queue| ::
         && queue[k].ticket.channelId == id && ProperOdds(queue[k].ticket)
         && env.oracle.chainAccepts(queue[k].signature)
         && Nullifier(env.oracle, id, queue[k].ticket.nonce) !in st.nullifiers
  }

  ghost predicate BeforeUnlock(c: Call, id: Bytes32, unlock: nat)
  {
    c.WithdrawChannel? && c.id == id ==> c.time < unlock
  }

  ghost function QueueKeys(queue: seq<ClaimTask>): set<bytes>
  {
    set k | 0 <= k < |queue| :: NullifierKey(queue[k].ticket.channelId, queue[k].ticket.nonce)
  }

  /** The provider's claims on the channel are the first |OurClaims| tasks, in order. */
  ghost predicate FollowsQueue(calls: seq<Call>, provider: Address, id: Bytes32, queue: seq<ClaimTask>)
  {
    var ours := OurClaims(calls, provider, id);
    |ours| <= |queue| && forall k | 0 <= k < |ours| :: Submits(ours[k], queue[k])
  }

  /** A history from t0 on in which everybody may do anything, except that no withdrawal of this
      channel comes late enough to succeed, and in which this provider claims on this channel
      only from the queue, in order. */
  ghost predicate Schedule(env: Env, st: State, calls: seq<Call>, t0: nat, provider: Address, id: Bytes32,
                           queue: seq<ClaimTask>)
    requires id in st.channels
  {
    && (forall c | c in calls :: Valid(env, c) && t0 <= c.time && BeforeUnlock(c, id, Unlock(st.channels[id], t0)))
    && FollowsQueue(calls, provider, id, queue)
    && CollisionFree(env.oracle, ClaimKeys(calls) + QueueKeys(queue))
  }

  lemma ScheduleFront(env: Env, st: State, calls: seq<Call>, t0: nat, provider: Address, id: Bytes32,
                      queue: seq<ClaimTask>)
    requires id in st.channels && calls != []
    requires Schedule(env, st, calls, t0, provider, id, queue)
    ensures Schedule(env, st, calls[..|calls| - 1], t0, provider, id, queue)
  {
    var front := calls[..|calls| - 1];
    assert ClaimKeys(front) <= ClaimKeys(calls) by {
      forall k | 0 <= k < |front| && front[k].ClaimTicket?
        ensures NullifierKey(front[k].t.channelId, front[k].t.nonce) in ClaimKeys(calls)
      {
        assert calls[k] == front[k];
      }
    }
  }

  /** Where things stand once m tasks are paid: the channel `was` is still there, its balance
      has moved by the deposits and the tasks paid, calls made from t0 on cannot withdraw it
      before `unlock`, and the other tasks are unused. */
  ghost predicate Standing(env: Env, was: Channel, now: State, id: Bytes32, t0: nat, unlock: nat, deposits: nat,
                           queue: seq<ClaimTask>, m: nat)
  {
    && Inv(env, now)
    && m <= |queue|
    && id in now.channels
    && now.channels[id].client == was.client && now.channels[id].provider == was.provider
    && now.channels[id].balance == was.balance + deposits - FaceSum(queue[..m])
    && Unlock(now.channels[id], t0) >= unlock
    && Unused(env, now, id, queue, m)
  }

  ghost predicate Unused(env: Env, now: State, id: Bytes32, queue: seq<ClaimTask>, m: nat)
  {
    forall k | m <= k < |queue| :: Nullifier(env.oracle, id, queue[k].ticket.nonce) !in now.nullifiers
  }

  /** Another party's call neither withdraws the channel, nor pays from it, nor uses up the
      nullifier of a task. */
  lemma OtherStep(env: Env, mid: State, c: Call, provider: Address, id: Bytes32, unlock: nat)
    requires Inv(env, mid) && Valid(env, c) && id in mid.channels && mid.channels[id].provider == provider
    requires !Ours(c, provider, id)
    requires BeforeUnlock(c, id, unlock)
    requires mid.channels[id].closeRequestedAt != 0 ==> mid.channels[id].closeRequestedAt + WITHDRAWAL_DELAY >= unlock
    ensures !Withdraws(env, mid, c, id) && PayoutFrom(env, mid, c, id) == 0
  {
  }

  lemma OtherKeepsNullifier(env: Env, mid: State, c: Call, provider: Address, id: Bytes32, nonce: u64)
    requires Inv(env, mid) && id in mid.channels && mid.channels[id].provider == provider
    requires !Ours(c, provider, id)
    requires Nullifier(env.oracle, id, nonce) !in mid.nullifiers
    requires c.ClaimTicket? ==>
               CollisionFree(env.oracle, {NullifierKey(c.t.channelId, c.t.nonce), NullifierKey(id, nonce)})
    ensures Nullifier(env.oracle, id, nonce) !in Apply(env, mid, c).nullifiers
  {
    StepNullifiers(env, mid, c);
    if c.ClaimTicket? {
      NullifierKeyInjective(c.t.channelId, c.t.nonce, id, nonce);
    }
  }

  /** The close time after a call: unchanged, or the time of the call. */
  lemma CloseTimeStep(env: Env, mid: State, c: Call, id: Bytes32)
    requires Inv(env, mid) && Valid(env, c) && id in mid.channels && id in Apply(env, mid, c).channels
    ensures var at, at' := mid.channels[id].closeRequestedAt, Apply(env, mid, c).channels[id].closeRequestedAt;
            at' == at || (at == 0 && at' == c.time)
  {
  }

  lemma {:induction false} FaceSumPrefix(queue: seq<ClaimTask>, k: nat)
    requires k <= |queue|
    ensures FaceSum(queue[..k]) <= FaceSum(queue)
    ensures k < |queue| ==> FaceSum(queue[..k + 1]) == FaceSum(queue[..k]) + queue[k].ticket.faceValue <= FaceSum(queue)
    decreases |queue|
  {
    if k < |queue| {
      assert queue[..k + 1][..k] == queue[..k];
      var front := queue[..|queue| - 1];
      FaceSumPrefix(front, k);
      assert front[..k] == queue[..k];
      if k + 1 < |queue| {
        assert front[..k + 1] == queue[..k + 1];
      } else {
        assert queue[..k + 1] == queue;
      }
    } else {
      assert queue[..k] == queue;
    }
  }

  /** The next task is paid when its turn comes, whatever happened before. */
  lemma OurStep(env: Env, mid: State, c: Call, provider: Address, client: Address, id: Bytes32, task: ClaimTask)
    requires Inv(env, mid) && Valid(env, c) && Ours(c, provider, id) && Submits(c, task)
    requires id in mid.channels && mid.channels[id].client == client && mid.channels[id].provider == provider
    requires task.ticket.faceValue <= mid.channels[id].balance
    requires Nullifier(env.oracle, id, task.ticket.nonce) !in mid.nullifiers
    requires TaskSound(env.oracle, env.separator, client, task) && ProperOdds(task.ticket)
    requires env.oracle.chainAccepts(task.signature)
    ensures Step(env, mid, c).Ok? && PayoutFrom(env, mid, c, id) == task.ticket.faceValue
    ensures DepositTo(env, mid, c, id) == 0 && !Withdraws(env, mid, c, id)
    ensures Apply(env, mid, c).nullifiers == mid.nullifiers + {Nullifier(env.oracle, id, task.ticket.nonce)}
  {
    WinIsPayableIff(env, mid, provider, client, c.time, task);
    StepNullifiers(env, mid, c);
  }

  lemma OurKeepsUnused(env: Env, mid: State, c: Call, id: Bytes32, queue: seq<ClaimTask>, m: nat)
    requires m < |queue| && Unused(env, mid, id, queue, m)
    requires Apply(env, mid, c).nullifiers == mid.nullifiers + {Nullifier(env.oracle, id, queue[m].ticket.nonce)}
    requires forall k | m < k < |queue| :: queue[m].ticket.nonce < queue[k].ticket.nonce
    requires forall k | m <= k < |queue| :: queue[k].ticket.channelId == id
    requires CollisionFree(env.oracle, QueueKeys(queue))
    ensures Unused(env, Apply(env, mid, c), id, queue, m + 1)
  {
    forall k | m < k < |queue|
      ensures Nullifier(env.oracle, id, queue[k].ticket.nonce) !in Apply(env, mid, c).nullifiers
    {
      NullifierKeyInjective(id, queue[m].ticket.nonce, id, queue[k].ticket.nonce);
      assert NullifierKey(id, queue[m].ticket.nonce) in QueueKeys(queue);
      assert NullifierKey(id, queue[k].ticket.nonce) in QueueKeys(queue);
    }
  }

  /** What any call that does not withdraw the channel does to it: d comes in and p goes out. */
  ghost predicate Moves(env: Env, c: Call, mid: State, now: State, id: Bytes32, d: nat, p: nat)
  {
    && Inv(env, now) && id in mid.channels && id in now.channels
    && Continues(mid.channels[id], now.channels[id], d, p)
    && (now.channels[id].closeRequestedAt == mid.channels[id].closeRequestedAt
        || now.channels[id].closeRequestedAt == c.time)
  }

  lemma StepMoves(env: Env, mid: State, c: Call, id: Bytes32)
    requires Inv(env, mid) && Valid(env, c) && id in mid.channels && !Withdraws(env, mid, c, id)
    ensures Moves(env, c, mid, Apply(env, mid, c), id, DepositTo(env, mid, c, id), PayoutFrom(env, mid, c, id))
  {
    StepContinues(env, mid, c, id);
    CloseTimeStep(env, mid, c, id);
    StepKeepsInv(env, mid, c);
  }

  lemma StandingMoves(env: Env, was: Channel, mid: State, now: State, c: Call, id: Bytes32, t0: nat, unlock: nat,
                      deposits: nat, d: nat, p: nat, queue: seq<ClaimTask>, m: nat, m': nat)
    requires Standing(env, was, mid, id, t0, unlock, deposits, queue, m)
    requires t0 <= c.time && Moves(env, c, mid, now, id, d, p)
    requires m' <= |queue| && FaceSum(queue[..m']) == FaceSum(queue[..m]) + p && Unused(env, now, id, queue, m')
    ensures Standing(env, was, now, id, t0, unlock, deposits + d, queue, m')
  {
  }

  /** The queue's next task and a call that submits it, in a standing channel. */
  ghost predicate NextTask(env: Env, was: Channel, c: Call, provider: Address, client: Address, id: Bytes32,
                           queue: seq<ClaimTask>, m: nat)
  {
    && m < |queue| && was.client == client && was.provider == provider && FaceSum(queue) <= was.balance
    && Valid(env, c) && Ours(c, provider, id) && Submits(c, queue[m])
    && QueueSound(env.oracle, env.separator, client, queue)
    && (forall k | 0 <= k < |queue| :: queue[k].ticket.channelId == id)
    && ProperOdds(queue[m].ticket) && env.oracle.chainAccepts(queue[m].signature)
    && CollisionFree(env.oracle, QueueKeys(queue))
  }

  lemma NextTaskPays(env: Env, was: Channel, mid: State, c: Call, provider: Address, client: Address, id: Bytes32,
                     t0: nat, unlock: nat, deposits: nat, queue: seq<ClaimTask>, m: nat)
    requires Standing(env, was, mid, id, t0, unlock, deposits, queue, m)
    requires NextTask(env, was, c, provider, client, id, queue, m)
    ensures Step(env, mid, c).Ok? && PayoutFrom(env, mid, c, id) == queue[m].ticket.faceValue
    ensures !Withdraws(env, mid, c, id) && Unused(env, Apply(env, mid, c), id, queue, m + 1)
  {
    FaceSumPrefix(queue, m);
    OurStep(env, mid, c, provider, client, id, queue[m]);
    OurKeepsUnused(env, mid, c, id, queue, m);
  }

  lemma OurStanding(env: Env, was: Channel, mid: State, c: Call, provider: Address, client: Address, id: Bytes32,
                    t0: nat, unlock: nat, deposits: nat, queue: seq<ClaimTask>, m: nat)
    requires Standing(env, was, mid, id, t0, unlock, deposits, queue, m) && t0 <= c.time
    requires NextTask(env, was, c, provider, client, id, queue, m)
    ensures Step(env, mid, c).Ok?
    ensures Standing(env, was, Apply(env, mid, c), id, t0, unlock, deposits + DepositTo(env, mid, c, id), queue, m + 1)
  {
    NextTaskPays(env, was, mid, c, provider, client, id, t0, unlock, deposits, queue, m);
    FaceSumPrefix(queue, m);
    StepMoves(env, mid, c, id);
    StandingMoves(env, was, mid, Apply(env, mid, c), c, id, t0, unlock, deposits,
                  DepositTo(env, mid, c, id), PayoutFrom(env, mid, c, id), queue, m, m + 1);
  }

  lemma OtherStanding(env: Env, was: Channel, mid: State, c: Call, provider: Address, id: Bytes32,
                      t0: nat, unlock: nat, deposits: nat, queue: seq<ClaimTask>, m: nat)
    requires Standing(env, was, mid, id, t0, unlock, deposits, queue, m)
    requires was.provider == provider && Valid(env, c) && !Ours(c, provider, id)
    requires t0 <= c.time && BeforeUnlock(c, id, unlock)
    requires forall k | 0 <= k < |queue| :: queue[k].ticket.channelId == id
    requires c.ClaimTicket? ==> CollisionFree(env.oracle, {NullifierKey(c.t.channelId, c.t.nonce)} + QueueKeys(queue))
    ensures Standing(env, was, Apply(env, mid, c), id, t0, unlock, deposits + DepositTo(env, mid, c, id), queue, m)
  {
    OtherStep(env, mid, c, provider, id, unlock);
    forall k | m <= k < |queue|
      ensures Nullifier(env.oracle, id, queue[k].ticket.nonce) !in Apply(env, mid, c).nullifiers
    {
      assert NullifierKey(id, queue[k].ticket.nonce) in QueueKeys(queue);
      OtherKeepsNullifier(env, mid, c, provider, id, queue[k].ticket.nonce);
    }
    StepMoves(env, mid, c, id);
    StandingMoves(env, was, mid, Apply(env, mid, c), c, id, t0, unlock, deposits,
                  DepositTo(env, mid, c, id), PayoutFrom(env, mid, c, id), queue, m, m);
  }

  /** What the last call of a schedule is bound to be. */
  lemma ScheduleLast(env: Env, st: State, calls: seq<Call>, t0: nat, provider: Address, id: Bytes32,
                     queue: seq<ClaimTask>)
    requires id in st.channels && calls != []
    requires Schedule(env, st, calls, t0, provider, id, queue)
    ensures var c, m := calls[|calls| - 1], |OurClaims(calls[..|calls| - 1], provider, id)|;
            && Valid(env, c) && t0 <= c.time && BeforeUnlock(c, id, Unlock(st.channels[id], t0))
            && (Ours(c, provider, id) ==> m < |queue| && Submits(c, queue[m]))
            && (c.ClaimTicket? ==>
                  CollisionFree(env.oracle, {NullifierKey(c.t.channelId, c.t.nonce)} + QueueKeys(queue)))
  {
    var c, m := calls[|calls| - 1], |OurClaims(calls[..|calls| - 1], provider, id)|;
    assert c in calls;
    if Ours(c, provider, id) {
      assert OurClaims(calls, provider, id)[m] == c;
    }
    if c.ClaimTicket? {
      assert NullifierKey(c.t.channelId, c.t.nonce) in ClaimKeys(calls);
    }
  }

  /** In every such history each claim from the queue succeeds, and the channel's balance falls
      by exactly the face values claimed, over whatever was deposited meanwhile. */
  lemma {:induction false} QueueSettles(env: Env, st: State, calls: seq<Call>, t0: nat, provider: Address,
                                        client: Address, id: Bytes32, queue: seq<ClaimTask>)
    requires Inv(env, st) && Settleable(env, st, provider, client, id, queue)
    requires Schedule(env, st, calls, t0, provider, id, queue)
    ensures Settling(env, st, calls, t0, provider, id, queue)
    decreases |calls|
  {
    if calls == [] {
      assert queue[..0] == [];
    } else {
      ScheduleFront(env, st, calls, t0, provider, id, queue);
      QueueSettles(env, st, calls[..|calls| - 1], t0, provider, client, id, queue);
      ScheduleLast(env, st, calls, t0, provider, id, queue);
      LastSettles(env, st, calls, t0, provider, client, id, queue);
    }
  }

  /** The claims made so far have all succeeded, and the rest of the queue still stands. */
  ghost predicate Settling(env: Env, st: State, calls: seq<Call>, t0: nat, provider: Address, id: Bytes32,
                           queue: seq<ClaimTask>)
    requires id in st.channels
  {
    && Standing(env, st.channels[id], Run(env, st, calls), id, t0, Unlock(st.channels[id], t0),
                Deposits(env, st, calls, id, 0), queue, |OurClaims(calls, provider, id)|)
    && forall k | 0 <= k < |calls| :: Ours(calls[k], provider, id) ==> Succeeds(env, st, calls, k)
  }

  lemma LastSettles(env: Env, st: State, calls: seq<Call>, t0: nat, provider: Address, client: Address,
                    id: Bytes32, queue: seq<ClaimTask>)
    requires calls != [] && Settleable(env, st, provider, client, id, queue)
    requires Settling(env, st, calls[..|calls| - 1], t0, provider, id, queue)
    requires var c, m := calls[|calls| - 1], |OurClaims(calls[..|calls| - 1], provider, id)|;
             && Valid(env, c) && t0 <= c.time && BeforeUnlock(c, id, Unlock(st.channels[id], t0))
             && (Ours(c, provider, id) ==> m < |queue| && Submits(c, queue[m]))
             && (c.ClaimTicket? ==>
                   CollisionFree(env.oracle, {NullifierKey(c.t.channelId, c.t.nonce)} + QueueKeys(queue)))
    ensures Settling(env, st, calls, t0, provider, id, queue)
  {
    var front, c := calls[..|calls| - 1], calls[|calls| - 1];
    var was, mid, unlock := st.channels[id], Run(env, st, front), Unlock(st.channels[id], t0);
    var deposits, m := Deposits(env, st, front, id, 0), |OurClaims(front, provider, id)|;
    if Ours(c, provider, id) {
      OurStanding(env, was, mid, c, provider, client, id, t0, unlock, deposits, queue, m);
    } else {
      OtherStanding(env, was, mid, c, provider, id, t0, unlock, deposits, queue, m);
    }
    SucceedsFront(env, st, calls, provider, id);
  }

  lemma SucceedsFront(env: Env, st: State, calls: seq<Call>, provider: Address, id: Bytes32)
    requires calls != []
    requires var front := calls[..|calls| - 1];
             forall k | 0 <= k < |front| :: Ours(front[k], provider, id) ==> Succeeds(env, st, front, k)
    requires var c, mid := calls[|calls| - 1], Run(env, st, calls[..|calls| - 1]);
             Ours(c, provider, id) ==> Step(env, mid, c).Ok?
    ensures forall k | 0 <= k < |calls| :: Ours(calls[k], provider, id) ==> Succeeds(env, st, calls, k)
  {
    var front := calls[..|calls| - 1];
    forall k | 0 <= k < |calls| && Ours(calls[k], provider, id) ensures Succeeds(env, st, calls, k) {
      if k < |front| {
        assert front[k] == calls[k] && front[..k] == calls[..k];
        assert Succeeds(env, st, front, k);
      }
    }
  }

  /** Every claim from the queue brings the provider its face value. */
  lemma ClaimsPay(env: Env, st: State, calls: seq<Call>, provider: Address, id: Bytes32, k: nat)
    requires Inv(env, st) && forall c | c in calls :: Valid(env, c)
    requires k < |calls| && Ours(calls[k], provider, id) && Succeeds(env, st, calls, k)
    ensures Moved(Before(env, st, calls, k).token, Before(env, st, calls, k + 1).token, env.self, provider,
                  calls[k].t.faceValue)
  {
    forall c | c in calls[..k] ensures c in calls {
    }
    RunKeepsInv(env, st, calls[..k]);
    BeforeStep(env, st, calls, k);
    assert calls[k] in calls;
    PayoutGoesToProvider(env, Before(env, st, calls, k), calls[k], id);
  }

  /** The premises of a settlement: a session of the gatekeeper, a deployed history of the escrow
      up to a moment t0 when the session's channel holds enough for the session's wins, with none
      of their nonces used, and a schedule from there on. */
  ghost predicate SettlementPremises(
      env: Env, genesis: State, past: seq<Call>, calls: seq<Call>, t0: nat,
      provider: Address, client: Address, id: Bytes32, s: Session, inputs: seq<Input>)
  {
    var st, queue := Run(env, genesis, past), SessionRun(env.oracle, env.separator, client, s, inputs).queue;
    && Deployed(env, genesis) && (forall c | c in past :: Valid(env, c))
    && s.queue == [] && s.gate.commitment == env.oracle.keccak(s.gate.seed)
    && id in st.channels && st.channels[id].client == client && st.channels[id].provider == provider
    && FaceSum(queue) <= st.channels[id].balance
    && (forall k | 0 <= k < |queue| ::
          && queue[k].ticket.channelId == id && ProperOdds(queue[k].ticket)
          && env.oracle.chainAccepts(queue[k].signature)
          && Nullifier(env.oracle, id, queue[k].ticket.nonce) !in st.nullifiers)
    && Schedule(env, st, calls, t0, provider, id, queue)
  }

  /** Each of the provider's claims on the channel succeeds and brings its face value; and once
      the whole queue has been submitted the channel has paid exactly the sum. */
  ghost predicate QueuePaid(env: Env, st: State, calls: seq<Call>, provider: Address, id: Bytes32,
                            queue: seq<ClaimTask>)
    requires id in st.channels
  {
    && (forall k | 0 <= k < |calls| :: Ours(calls[k], provider, id) ==>
          && Succeeds(env, st, calls, k)
          && Moved(Before(env, st, calls, k).token, Before(env, st, calls, k + 1).token,
                   env.self, provider, calls[k].t.faceValue))
    && id in Run(env, st, calls).channels
    && (|OurClaims(calls, provider, id)| == |queue| ==>
          Run(env, st, calls).channels[id].balance
          == st.channels[id].balance + Deposits(env, st, calls, id, 0) - FaceSum(queue))
  }

  /** From the gate to the money. Whatever anybody else does before the channel can be withdrawn,
      each claim from the session's queue, made in order and in time, succeeds and brings the
      provider its face value; and once the whole queue has been submitted the channel has paid
      exactly the sum. */
  lemma EndToEndSettlement(
      env: Env, genesis: State, past: seq<Call>, calls: seq<Call>, t0: nat,
      provider: Address, client: Address, id: Bytes32, s: Session, inputs: seq<Input>)
    requires SettlementPremises(env, genesis, past, calls, t0, provider, client, id, s, inputs)
    ensures QueuePaid(env, Run(env, genesis, past), calls, provider, id,
                      SessionRun(env.oracle, env.separator, client, s, inputs).queue)
  {
    var st, queue := Run(env, genesis, past), SessionRun(env.oracle, env.separator, client, s, inputs).queue;
    DeployedInv(env, genesis);
    RunKeepsInv(env, genesis, past);
    SessionQueueSound(env.oracle, env.separator, client, s, inputs);
    QueueSettles(env, st, calls, t0, provider, client, id, queue);
    SettledIsPaid(env, st, calls, t0, provider, id, queue);
  }

  lemma SettledIsPaid(env: Env, st: State, calls: seq<Call>, t0: nat, provider: Address, id: Bytes32,
                      queue: seq<ClaimTask>)
    requires Inv(env, st) && id in st.channels && forall c | c in calls :: Valid(env, c)
    requires Settling(env, st, calls, t0, provider, id, queue)
    ensures QueuePaid(env, st, calls, provider, id, queue)
  {
    forall k | 0 <= k < |calls| && Ours(calls[k], provider, id)
      ensures Moved(Before(env, st, calls, k).token, Before(env, st, calls, k + 1).token,
                    env.self, provider, calls[k].t.faceValue)
    {
      ClaimsPay(env, st, calls, provider, id, k);
    }
    assert queue[..|queue|] == queue;
  }
}
