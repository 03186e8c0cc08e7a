/** One channel over a whole history: its ledger from opening to withdrawal, the window that
    a close request leaves the provider, and replay protection across reopenings. */
module Channels {
  import opened Bytes
  import opened Abi
  import opened Eip712
  import opened Threshold
  import opened Erc20
  import opened Verifier
  import opened Escrow
  import opened Runs

  // ------------------------------------------------------------ what a call does to a channel

  ghost predicate Opens(env: Env, st: State, c: Call, id: Bytes32)
  {
    c.OpenChannel? && Step(env, st, c).Ok? && ChannelId(env.oracle, c.sender, c.provider) == id
  }

  ghost predicate Withdraws(env: Env, st: State, c: Call, id: Bytes32)
  {
    c.WithdrawChannel? && Step(env, st, c).Ok? && c.id == id
  }

  /** A successful claim on channel id. */
  ghost predicate Pays(env: Env, st: State, c: Call, id: Bytes32)
  {
    c.ClaimTicket? && Step(env, st, c).Ok? && c.t.channelId == id
  }

  ghost function DepositTo(env: Env, st: State, c: Call, id: Bytes32): nat
  {
    if c.DepositFunds? && Step(env, st, c).Ok? && c.id == id then c.amount else 0
  }

  ghost function PayoutFrom(env: Env, st: State, c: Call, id: Bytes32): nat
  {
    if Pays(env, st, c, id) then c.t.faceValue else 0
  }

  /** The deposits to a channel by the calls from index `from` on. */
  ghost function Deposits(env: Env, st: State, calls: seq<Call>, id: Bytes32, from: nat): nat
  {
    if |calls| <= from then 0
    else
      Deposits(env, st, calls[..|calls| - 1], id, from)
      + DepositTo(env, Run(env, st, calls[..|calls| - 1]), calls[|calls| - 1], id)
  }

  /** The face values claimed from a channel by the calls from index `from` on. */
  ghost function Payouts(env: Env, st: State, calls: seq<Call>, id: Bytes32, from: nat): nat
  {
    if |calls| <= from then 0
    else
      Payouts(env, st, calls[..|calls| - 1], id, from)
      + PayoutFrom(env, Run(env, st, calls[..|calls| - 1]), calls[|calls| - 1], id)
  }

  /** A channel that a call has not withdrawn: same parties, balance moved by that call's
      deposit and payout, and the close time set at most once. */
  ghost predicate Continues(ch: Channel, ch': Channel, deposits: nat, payouts: nat)
  {
    && ch'.client == ch.client && ch'.provider == ch.provider
    && ch'.balance == ch.balance + deposits - payouts
    && (ch.closeRequestedAt != 0 ==> ch'.closeRequestedAt == ch.closeRequestedAt)
  }

  lemma OpenContinues(env: Env, st: State, c: Call, id: Bytes32)
    requires Inv(env, st) && c.OpenChannel? && id in st.channels
    ensures id in Apply(env, st, c).channels && Apply(env, st, c).channels[id] == st.channels[id]
  {
  }

  lemma ClaimContinues(env: Env, st: State, c: Call, id: Bytes32)
    requires Inv(env, st) && c.ClaimTicket? && id in st.channels
    ensures id in Apply(env, st, c).channels
    ensures Continues(st.channels[id], Apply(env, st, c).channels[id], 0, PayoutFrom(env, st, c, id))
  {
  }

  lemma StepContinues(env: Env, st: State, c: Call, id: Bytes32)
    requires Inv(env, st) && Valid(env, c) && id in st.channels
    ensures var st' := Apply(env, st, c);
            if Withdraws(env, st, c, id) then id !in st'.channels
            else id in st'.channels
                 && Continues(st.channels[id], st'.channels[id], DepositTo(env, st, c, id), PayoutFrom(env, st, c, id))
  {
    match c
    case OpenChannel(_, _, _, _) => OpenContinues(env, st, c, id);
    case ClaimTicket(_, _, _, _, _) => ClaimContinues(env, st, c, id);
    case _ => PlainContinues(env, st, c, id);
  }

  lemma PlainContinues(env: Env, st: State, c: Call, id: Bytes32)
    requires Inv(env, st) && Valid(env, c) && id in st.channels && !c.OpenChannel? && !c.ClaimTicket?
    ensures var st' := Apply(env, st, c);
            if Withdraws(env, st, c, id) then id !in st'.channels
            else id in st'.channels
                 && Continues(st.channels[id], st'.channels[id], DepositTo(env, st, c, id), PayoutFrom(env, st, c, id))
  {
  }

  lemma StepOpensOnly(env: Env, st: State, c: Call, id: Bytes32)
    requires Inv(env, st) && Valid(env, c) && id !in st.channels
    ensures var st' := Apply(env, st, c);
            if Opens(env, st, c, id)
            then id in st'.channels && st'.channels[id] == Channel(c.sender, c.provider, c.amount, 0)
            else id !in st'.channels
  {
  }

  /** No call from index `from` on withdraws the channel. */
  ghost predicate Undisturbed(env: Env, st: State, calls: seq<Call>, id: Bytes32, from: nat)
  {
    forall k | from <= k < |calls| :: !Withdraws(env, Before(env, st, calls, k), calls[k], id)
  }

  lemma UndisturbedFront(env: Env, st: State, calls: seq<Call>, id: Bytes32, from: nat)
    requires from < |calls|
    ensures Undisturbed(env, st, calls, id, from)
            <==> Undisturbed(env, st, calls[..|calls| - 1], id, from)
                 && !Withdraws(env, Run(env, st, calls[..|calls| - 1]), calls[|calls| - 1], id)
  {
    var front := calls[..|calls| - 1];
    forall k | 0 <= k < |front| ensures Before(env, st, front, k) == Before(env, st, calls, k) {
      assert front[..k] == calls[..k];
    }
  }

  /** From any point where the channel exists to any later one without a withdrawal. */
  lemma {:induction false} ChannelHistory(env: Env, st: State, calls: seq<Call>, id: Bytes32, from: nat)
    requires Inv(env, st) && forall c | c in calls :: Valid(env, c)
    requires from <= |calls| && id in Before(env, st, calls, from).channels
    requires Undisturbed(env, st, calls, id, from)
    ensures id in Run(env, st, calls).channels
    ensures Continues(Before(env, st, calls, from).channels[id], Run(env, st, calls).channels[id],
                      Deposits(env, st, calls, id, from), Payouts(env, st, calls, id, from))
    decreases |calls|
  {
    if from == |calls| {
      assert calls[..from] == calls;
    } else {
      var front := calls[..|calls| - 1];
      assert front[..from] == calls[..from];
      UndisturbedFront(env, st, calls, id, from);
      ChannelHistory(env, st, front, id, from);
      RunKeepsInv(env, st, front);
      StepContinues(env, Run(env, st, front), calls[|calls| - 1], id);
    }
  }

  // ------------------------------------------------------------------ the incarnation ledger

  /** Call o opened the channel as it now stands, and nothing has withdrawn it since. */
  ghost predicate OpenedAt(env: Env, st: State, calls: seq<Call>, id: Bytes32, o: nat)
  {
    && o < |calls|
    && Opens(env, Before(env, st, calls, o), calls[o], id)
    && Undisturbed(env, st, calls, id, o + 1)
  }

  /** Every channel of a reachable state was opened by some call that still stands. */
  lemma {:induction false} EveryChannelWasOpened(env: Env, st: State, calls: seq<Call>, id: Bytes32) returns (o: nat)
    requires Deployed(env, st) && forall c | c in calls :: Valid(env, c)
    requires id in Run(env, st, calls).channels
    ensures OpenedAt(env, st, calls, id, o)
    decreases |calls|
  {
    var front, last := calls[..|calls| - 1], calls[|calls| - 1];
    var mid := Run(env, st, front);
    RunKeepsInv(env, st, front);
    if id in mid.channels {
      StepContinues(env, mid, last, id);
      o := EveryChannelWasOpened(env, st, front, id);
      UndisturbedFront(env, st, calls, id, o + 1);
      assert front[..o] == calls[..o];
    } else {
      StepOpensOnly(env, mid, last, id);
      o := |calls| - 1;
    }
  }

  /** The ledger of the incarnation that call o opened: the channel belongs to that caller and
      provider, and holds the opening amount plus its deposits less its payouts. */
  lemma IncarnationLedger(env: Env, st: State, calls: seq<Call>, id: Bytes32, o: nat)
    requires Deployed(env, st) && forall c | c in calls :: Valid(env, c)
    requires OpenedAt(env, st, calls, id, o)
    ensures id in Run(env, st, calls).channels
    ensures var ch, open := Run(env, st, calls).channels[id], calls[o];
            && ch.client == open.sender && ch.provider == open.provider
            && ch.balance == open.amount + Deposits(env, st, calls, id, o + 1) - Payouts(env, st, calls, id, o + 1)
  {
    RunKeepsInv(env, st, calls[..o]);
    BeforeStep(env, st, calls, o);
    ChannelHistory(env, st, calls, id, o + 1);
  }

  /** The state and the call reach every payee: a payout goes in full to the provider of that
      incarnation, who made the claim, and touches nobody else's tokens. */
  lemma PayoutGoesToProvider(env: Env, st: State, c: Call, id: Bytes32)
    requires Inv(env, st) && Valid(env, c) && Pays(env, st, c, id)
    ensures id in st.channels && c.sender == st.channels[id].provider
    ensures c.t.faceValue <= st.channels[id].balance
    ensures Moved(st.token, Apply(env, st, c).token, env.self, c.sender, c.t.faceValue)
  {
    TransferMoves(st.token, env.self, c.sender, c.t.faceValue);
  }

  /** A withdrawal ends the incarnation: it is made by the client who opened it, refunds to
      that client exactly what the incarnation's ledger leaves, and keeps every nullifier. */
  lemma WithdrawalRefundsRemainder(env: Env, st: State, calls: seq<Call>, id: Bytes32, o: nat, c: Call)
    requires Deployed(env, st) && forall x | x in calls :: Valid(env, x)
    requires OpenedAt(env, st, calls, id, o)
    requires Valid(env, c) && Withdraws(env, Run(env, st, calls), c, id)
    ensures var now, later, open := Run(env, st, calls), Apply(env, Run(env, st, calls), c), calls[o];
            var rest := open.amount + Deposits(env, st, calls, id, o + 1) - Payouts(env, st, calls, id, o + 1);
            && rest >= 0 && c.sender == open.sender
            && Moved(now.token, later.token, env.self, open.sender, rest)
            && id !in later.channels && later.nullifiers == now.nullifiers
            && later.channels == now.channels - {id}
  {
    IncarnationLedger(env, st, calls, id, o);
    RunKeepsInv(env, st, calls);
    var now := Run(env, st, calls);
    TransferMoves(now.token, env.self, c.sender, now.channels[id].balance);
  }

  // ---------------------------------------------------------------------------- redeemable

  /** Everything about a ticket that its provider needs at the time of the claim, but the draw. */
  ghost predicate InOrder(env: Env, st: State, time: nat, t: Ticket, signature: bytes, seed: Bytes32)
  {
    && t.channelId in st.channels
    && time <= t.expiry
    && t.faceValue <= st.channels[t.channelId].balance
    && Nullifier(env.oracle, t.channelId, t.nonce) !in st.nullifiers
    && env.oracle.keccak(seed) == t.providerCommitment
    && env.oracle.chainAccepts(signature)
    && env.oracle.recover(ChainDigest(env.oracle, env.separator, t), signature) == Some(st.channels[t.channelId].client)
  }

  ghost predicate Redeemable(env: Env, st: State, time: nat, t: Ticket, signature: bytes, seed: Bytes32)
  {
    && InOrder(env, st, time, t, signature, seed)
    && ChainWins(t.winProbNumerator, t.winProbDenominator,
                 CombinedHash(env.oracle, ChainDigest(env.oracle, env.separator, t), t.clientSeed, seed))
  }

  /** A claim succeeds exactly when its ticket is redeemable and the channel's provider makes
      it: the escrow never lacks the tokens, and the close request plays no part. */
  lemma ClaimSucceedsIff(env: Env, st: State, sender: Address, time: nat, t: Ticket, signature: bytes, seed: Bytes32)
    requires Inv(env, st)
    ensures Claim(env, st, sender, time, t, signature, seed).Ok?
            <==> Redeemable(env, st, time, t, signature, seed) && st.channels[t.channelId].provider == sender
    ensures Claim(env, st, sender, time, t, signature, seed) != Err(TransferFailed)
  {
    TransferMoves(st.token, env.self, sender, t.faceValue);
    if t.channelId in st.channels {
      BalanceCovered(env, st, t.channelId);
    }
  }

  /** A withdrawal succeeds exactly for the client of a channel whose delay has run out. */
  lemma WithdrawSucceedsIff(env: Env, st: State, sender: Address, time: nat, id: Bytes32)
    requires Inv(env, st) && sender != ZERO_ADDRESS
    ensures Withdraw(env, st, sender, time, id).Ok?
            <==> id in st.channels && st.channels[id].client == sender && st.channels[id].closeRequestedAt != 0
                 && time >= st.channels[id].closeRequestedAt + WITHDRAWAL_DELAY
    ensures Withdraw(env, st, sender, time, id) != Err(TransferFailed)
  {
    if id in st.channels {
      BalanceCovered(env, st, id);
      TransferMoves(st.token, env.self, sender, st.channels[id].balance);
    }
  }

  /** A claim that is in order up to the odds panics exactly on a zero denominator and above
      certainty, and no claim panics otherwise. */
  lemma ClaimPanicsIff(env: Env, st: State, sender: Address, time: nat, t: Ticket, signature: bytes, seed: Bytes32)
    requires Inv(env, st)
    ensures Claim(env, st, sender, time, t, signature, seed) == Err(ArithmeticPanic)
            <==> InOrder(env, st, time, t, signature, seed) && st.channels[t.channelId].provider == sender
                 && (t.winProbDenominator == 0 || t.winProbNumerator > t.winProbDenominator)
  {
    ChainPanicsIff(t.winProbNumerator, t.winProbDenominator);
  }

  /** A channel opens exactly when the provider is a real address, the amount is positive, the
      pair has no channel, and the tokens are there and approved; then they have moved in. */
  lemma OpenSucceedsIff(env: Env, st: State, sender: Address, provider: Address, amount: u256)
    requires Inv(env, st)
    ensures Open(env, st, sender, provider, amount).Ok?
            <==> provider != ZERO_ADDRESS && amount > 0 && ChannelId(env.oracle, sender, provider) !in st.channels
                 && amount <= st.token.BalanceOf(sender) && amount <= st.token.Allowance(sender, env.self)
    ensures Open(env, st, sender, provider, amount).Ok? ==>
              Moved(st.token, Open(env, st, sender, provider, amount).value.token, sender, env.self, amount)
  {
    TransferFromMoves(st.token, env.self, sender, env.self, amount);
  }

  /** Anybody may deposit to any existing channel, up to the width of its balance. */
  lemma DepositSucceedsIff(env: Env, st: State, sender: Address, id: Bytes32, amount: u256)
    requires Inv(env, st)
    ensures Deposit(env, st, sender, id, amount).Ok?
            <==> id in st.channels && amount > 0 && st.channels[id].balance + amount <= MAX
                 && amount <= st.token.BalanceOf(sender) && amount <= st.token.Allowance(sender, env.self)
    ensures Deposit(env, st, sender, id, amount).Ok? ==>
              Moved(st.token, Deposit(env, st, sender, id, amount).value.token, sender, env.self, amount)
  {
    TransferFromMoves(st.token, env.self, sender, env.self, amount);
  }

  // ------------------------------------------------------------------- the provider's window

  /** Call r asked to close the channel. */
  ghost predicate CloseRequested(env: Env, st: State, calls: seq<Call>, id: Bytes32, r: nat)
  {
    && r < |calls| && calls[r].CloseChannel? && calls[r].id == id
    && Succeeds(env, st, calls, r)
  }

  /** The day after a close request: whatever is called meanwhile, the channel keeps its
      parties and its close time, and its balance moves only by deposits and payouts; so the
      provider can still be paid for every ticket that is redeemable. */
  lemma ProtectedWindow(env: Env, st: State, calls: seq<Call>, id: Bytes32, r: nat)
    requires Deployed(env, st) && forall c | c in calls :: Valid(env, c)
    requires CloseRequested(env, st, calls, id, r)
    requires forall k | r < k < |calls| :: calls[k].time < calls[r].time + WITHDRAWAL_DELAY
    ensures id in Before(env, st, calls, r).channels && id in Run(env, st, calls).channels
    ensures var was, now := Before(env, st, calls, r).channels[id], Run(env, st, calls).channels[id];
            && Continues(was, now, Deposits(env, st, calls, id, r + 1), Payouts(env, st, calls, id, r + 1))
            && now.closeRequestedAt == calls[r].time
            && forall time: nat, t: Ticket, signature: bytes, seed: Bytes32 | t.channelId == id ::
                 Redeemable(env, Run(env, st, calls), time, t, signature, seed)
                 ==> Claim(env, Run(env, st, calls), now.provider, time, t, signature, seed).Ok?
    decreases |calls|
  {
    RunKeepsInv(env, st, calls[..r]);
    BeforeStep(env, st, calls, r);
    assert calls[r] in calls;
    CloseStep(env, Before(env, st, calls, r), calls[r]);
    WindowUndisturbed(env, st, calls, id, r + 1);
    ChannelHistory(env, st, calls, id, r + 1);
    RunKeepsInv(env, st, calls);
    ProviderCanClaim(env, Run(env, st, calls), id);
  }

  lemma CloseStep(env: Env, st: State, c: Call)
    requires Inv(env, st) && Valid(env, c) && c.CloseChannel? && Step(env, st, c).Ok?
    ensures c.id in st.channels && st.channels[c.id].closeRequestedAt == 0
    ensures Apply(env, st, c).channels == st.channels[c.id := st.channels[c.id].(closeRequestedAt := c.time)]
  {
  }

  lemma ProviderCanClaim(env: Env, st: State, id: Bytes32)
    requires Inv(env, st) && id in st.channels
    ensures forall time: nat, t: Ticket, signature: bytes, seed: Bytes32 | t.channelId == id ::
              Redeemable(env, st, time, t, signature, seed)
              ==> Claim(env, st, st.channels[id].provider, time, t, signature, seed).Ok?
  {
    forall time: nat, t: Ticket, signature: bytes, seed: Bytes32
      | t.channelId == id && Redeemable(env, st, time, t, signature, seed)
      ensures Claim(env, st, st.channels[id].provider, time, t, signature, seed).Ok?
    {
      ClaimSucceedsIff(env, st, st.channels[id].provider, time, t, signature, seed);
    }
  }

  /** Before the delay has run out nobody can withdraw. */
  lemma {:induction false} WindowUndisturbed(env: Env, st: State, calls: seq<Call>, id: Bytes32, from: nat)
    requires Inv(env, st) && forall c | c in calls :: Valid(env, c)
    requires from <= |calls| && id in Before(env, st, calls, from).channels
    requires var at := Before(env, st, calls, from).channels[id].closeRequestedAt;
             at != 0 && forall k | from <= k < |calls| :: calls[k].time < at + WITHDRAWAL_DELAY
    ensures Undisturbed(env, st, calls, id, from)
    decreases |calls|
  {
    if from < |calls| {
      var front := calls[..|calls| - 1];
      assert front[..from] == calls[..from];
      WindowUndisturbed(env, st, front, id, from);
      ChannelHistory(env, st, front, id, from);
      UndisturbedFront(env, st, calls, id, from);
    }
  }

  // ------------------------------------------------------------------------ replay protection

  /** Call k paid out ticket (id, nonce). */
  ghost predicate Paid(env: Env, st: State, calls: seq<Call>, k: nat, id: Bytes32, nonce: u64)
    requires k < |calls|
  {
    Pays(env, Before(env, st, calls, k), calls[k], id) && calls[k].t.nonce == nonce
  }

  /** Call k is a payout that used nullifier n. */
  ghost predicate Uses(env: Env, st: State, calls: seq<Call>, k: nat, n: Bytes32)
  {
    && k < |calls| && calls[k].ClaimTicket? && Succeeds(env, st, calls, k)
    && Nullifier(env.oracle, calls[k].t.channelId, calls[k].t.nonce) == n
  }

  lemma UsesFront(env: Env, st: State, calls: seq<Call>, k: nat, n: Bytes32)
    requires k + 1 < |calls|
    ensures Uses(env, st, calls[..|calls| - 1], k, n) <==> Uses(env, st, calls, k, n)
  {
    assert calls[..|calls| - 1][..k] == calls[..k];
  }

  /** The nullifiers of a reachable state are exactly those of the payouts made so far, over
      every incarnation of every channel. */
  lemma {:induction false} NullifiersRecordPayouts(env: Env, st: State, calls: seq<Call>, n: Bytes32)
    requires Deployed(env, st)
    ensures n in Run(env, st, calls).nullifiers <==> exists k :: Uses(env, st, calls, k, n)
    decreases |calls|
  {
    if calls != [] {
      var front, last := calls[..|calls| - 1], |calls| - 1;
      NullifiersRecordPayouts(env, st, front, n);
      StepNullifiers(env, Run(env, st, front), calls[last]);
      assert Uses(env, st, calls, last, n)
        <==> calls[last].ClaimTicket? && Step(env, Run(env, st, front), calls[last]).Ok?
             && Nullifier(env.oracle, calls[last].t.channelId, calls[last].t.nonce) == n;
      forall k: nat | k < last ensures Uses(env, st, front, k, n) <==> Uses(env, st, calls, k, n) {
        UsesFront(env, st, calls, k, n);
      }
      if k :| Uses(env, st, front, k, n) {
        assert Uses(env, st, calls, k, n);
      }
    }
  }

  lemma StepNullifiers(env: Env, st: State, c: Call)
    ensures Apply(env, st, c).nullifiers
            == st.nullifiers + if c.ClaimTicket? && Step(env, st, c).Ok?
                               then {Nullifier(env.oracle, c.t.channelId, c.t.nonce)} else {}
  {
  }

  /** No (channel id, nonce) pair is paid twice in the whole history, not even after the
      channel was withdrawn and opened again by the same parties. */
  lemma AtMostOnePayout(env: Env, st: State, calls: seq<Call>, i: nat, j: nat, id: Bytes32, nonce: u64)
    requires Deployed(env, st) && i < j < |calls|
    requires Paid(env, st, calls, i, id, nonce)
    ensures !Paid(env, st, calls, j, id, nonce)
  {
    NullifiersRecordPayouts(env, st, calls[..j], Nullifier(env.oracle, id, nonce));
    assert calls[..j][..i] == calls[..i] && calls[..j][i] == calls[i];
    assert Uses(env, st, calls[..j], i, Nullifier(env.oracle, id, nonce));
  }

  lemma NullifierKeyInjective(id: Bytes32, nonce: u64, id': Bytes32, nonce': u64)
    ensures NullifierKey(id, nonce) == NullifierKey(id', nonce') <==> id == id' && nonce == nonce'
  {
    if NullifierKey(id, nonce) == NullifierKey(id', nonce') {
      ConcatInjective(id, ToBE(nonce, 8), id', ToBE(nonce', 8));
      PowerValues();
      ToBEInjective(nonce, nonce', 8);
    }
  }

  /** The nullifier keys that a history's claims have hashed. */
  ghost function ClaimKeys(calls: seq<Call>): set<bytes>
  {
    set k | 0 <= k < |calls| && calls[k].ClaimTicket? :: NullifierKey(calls[k].t.channelId, calls[k].t.nonce)
  }

  /** Unless the hash collides on the keys involved, the replay check refuses exactly the
      pairs that have been paid: it never blocks a ticket because of another one. */
  lemma ReplayCheckExact(env: Env, st: State, calls: seq<Call>, id: Bytes32, nonce: u64)
    requires Deployed(env, st)
    requires CollisionFree(env.oracle, ClaimKeys(calls) + {NullifierKey(id, nonce)})
    ensures Nullifier(env.oracle, id, nonce) in Run(env, st, calls).nullifiers
            <==> exists k :: 0 <= k < |calls| && Paid(env, st, calls, k, id, nonce)
  {
    NullifiersRecordPayouts(env, st, calls, Nullifier(env.oracle, id, nonce));
    forall k: nat | k < |calls| && calls[k].ClaimTicket?
      ensures Uses(env, st, calls, k, Nullifier(env.oracle, id, nonce)) <==> Paid(env, st, calls, k, id, nonce)
    {
      UsesIsPaid(env, st, calls, k, id, nonce);
    }
    if k :| Uses(env, st, calls, k, Nullifier(env.oracle, id, nonce)) {
      assert Paid(env, st, calls, k, id, nonce);
    }
  }

  lemma UsesIsPaid(env: Env, st: State, calls: seq<Call>, k: nat, id: Bytes32, nonce: u64)
    requires k < |calls| && calls[k].ClaimTicket?
    requires CollisionFree(env.oracle, ClaimKeys(calls) + {NullifierKey(id, nonce)})
    ensures Uses(env, st, calls, k, Nullifier(env.oracle, id, nonce)) <==> Paid(env, st, calls, k, id, nonce)
  {
    var t := calls[k].t;
    assert NullifierKey(t.channelId, t.nonce) in ClaimKeys(calls);
    NullifierKeyInjective(t.channelId, t.nonce, id, nonce);
  }
}
