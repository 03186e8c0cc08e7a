/** Why a call on the escrow reverts: the first of its checks that fails, each stated by what it
    means in a state that keeps the invariant. */
module Reverts {
  import opened Bytes
  import opened Abi
  import opened Eip712
  import opened Threshold
  import opened Erc20
  import opened Verifier
  import opened Escrow
  import opened Runs
  import opened Channels

  /** Whether the token moves an amount into the escrow. */
  predicate Payable(env: Env, st: State, from: Address, amount: nat)
  {
    amount <= st.token.BalanceOf(from) && amount <= st.token.Allowance(from, env.self)
  }

  // --------------------------------------------------------------------------- openChannel

  const OPEN_CHECKS: seq<Error> := [InvalidProviderAddress, AmountNotPositive, ChannelAlreadyExists, TransferFailed]

  predicate OpenFault(env: Env, st: State, sender: Address, provider: Address, amount: u256, e: Error)
  {
    match e
    case InvalidProviderAddress => provider == ZERO_ADDRESS
    case AmountNotPositive => amount == 0
    case ChannelAlreadyExists => ChannelId(env.oracle, sender, provider) in st.channels
    case TransferFailed => !Payable(env, st, sender, amount)
    case _ => false
  }

  lemma OpenRevertsAtFirstFault(env: Env, st: State, sender: Address, provider: Address, amount: u256, i: nat)
    requires Inv(env, st) && i < |OPEN_CHECKS|
    ensures Open(env, st, sender, provider, amount) == Err(OPEN_CHECKS[i])
            <==> && OpenFault(env, st, sender, provider, amount, OPEN_CHECKS[i])
                 && forall j | 0 <= j < i :: !OpenFault(env, st, sender, provider, amount, OPEN_CHECKS[j])
  {
    OpenSucceedsIff(env, st, sender, provider, amount);
    assert OPEN_CHECKS[0] == InvalidProviderAddress && OPEN_CHECKS[1] == AmountNotPositive
        && OPEN_CHECKS[2] == ChannelAlreadyExists;
  }

  // ------------------------------------------------------------------------------- deposit

  const DEPOSIT_CHECKS: seq<Error> := [InvalidChannel, AmountNotPositive, ArithmeticPanic, TransferFailed]

  predicate DepositFault(env: Env, st: State, sender: Address, id: Bytes32, amount: u256, e: Error)
  {
    match e
    case InvalidChannel => id !in st.channels
    case AmountNotPositive => amount == 0
    case ArithmeticPanic => amount > MAX - st.Lookup(id).balance
    case TransferFailed => !Payable(env, st, sender, amount)
    case _ => false
  }

  lemma DepositRevertsAtFirstFault(env: Env, st: State, sender: Address, id: Bytes32, amount: u256, i: nat)
    requires Inv(env, st) && i < |DEPOSIT_CHECKS|
    ensures Deposit(env, st, sender, id, amount) == Err(DEPOSIT_CHECKS[i])
            <==> && DepositFault(env, st, sender, id, amount, DEPOSIT_CHECKS[i])
                 && forall j | 0 <= j < i :: !DepositFault(env, st, sender, id, amount, DEPOSIT_CHECKS[j])
  {
    DepositSucceedsIff(env, st, sender, id, amount);
    assert DEPOSIT_CHECKS[0] == InvalidChannel && DEPOSIT_CHECKS[1] == AmountNotPositive
        && DEPOSIT_CHECKS[2] == ArithmeticPanic;
  }

  // --------------------------------------------------------------------------- claimTicket

  const CLAIM_CHECKS: seq<Error> :=
    [ InvalidChannel, Unauthorized, TicketExpired, InsufficientEscrow, TicketAlreadyClaimed, InvalidProviderSeed,
      SignatureReverted, InvalidTicketSigner, ArithmeticPanic, NonWinningTicket ]

  predicate ClaimFault(env: Env, st: State, sender: Address, time: nat, t: Ticket, signature: bytes, seed: Bytes32,
                       e: Error)
  {
    var signer := env.oracle.recover(ChainDigest(env.oracle, env.separator, t), signature);
    match e
    case InvalidChannel => t.channelId !in st.channels
    case Unauthorized => sender != st.Lookup(t.channelId).provider
    case TicketExpired => t.expiry < time
    case InsufficientEscrow => t.faceValue > st.Lookup(t.channelId).balance
    case TicketAlreadyClaimed => env.oracle.keccak(t.channelId + ToBE(t.nonce, 8)) in st.nullifiers
    case InvalidProviderSeed => t.providerCommitment != env.oracle.keccak(seed)
    case SignatureReverted => signer == None || !env.oracle.chainAccepts(signature)
    case InvalidTicketSigner => signer != Some(st.Lookup(t.channelId).client)
    case ArithmeticPanic => ChainTarget(t.winProbNumerator, t.winProbDenominator) == None
    case NonWinningTicket =>
      !ChainWins(t.winProbNumerator, t.winProbDenominator,
                 CombinedHash(env.oracle, ChainDigest(env.oracle, env.separator, t), t.clientSeed, seed))
    case _ => false
  }

  function ClaimRank(e: Error): nat {
    match e
    case InvalidChannel => 0
    case Unauthorized => 1
    case TicketExpired => 2
    case InsufficientEscrow => 3
    case TicketAlreadyClaimed => 4
    case InvalidProviderSeed => 5
    case SignatureReverted => 6
    case InvalidTicketSigner => 7
    case ArithmeticPanic => 8
    case _ => 9
  }

  /** The first check that a claim fails, or how many there are. */
  ghost predicate FirstClaimFault(env: Env, st: State, sender: Address, time: nat, t: Ticket, signature: bytes,
                                  seed: Bytes32, i: nat)
  {
    && i <= |CLAIM_CHECKS|
    && (i < |CLAIM_CHECKS| ==> ClaimFault(env, st, sender, time, t, signature, seed, CLAIM_CHECKS[i]))
    && forall j | 0 <= j < i :: !ClaimFault(env, st, sender, time, t, signature, seed, CLAIM_CHECKS[j])
  }

  lemma ErrorIsFault(env: Env, st: State, sender: Address, time: nat, t: Ticket, signature: bytes, seed: Bytes32)
    requires Inv(env, st) && Claim(env, st, sender, time, t, signature, seed).Err?
    requires Claim(env, st, sender, time, t, signature, seed) != Err(TransferFailed)
    ensures var e := Claim(env, st, sender, time, t, signature, seed).error;
            CLAIM_CHECKS[ClaimRank(e)] == e && ClaimFault(env, st, sender, time, t, signature, seed, e)
  {
  }

  lemma EarlierChecksPass(env: Env, st: State, sender: Address, time: nat, t: Ticket, signature: bytes, seed: Bytes32,
                          e: Error)
    requires Inv(env, st) && e in CLAIM_CHECKS && ClaimFault(env, st, sender, time, t, signature, seed, e)
    ensures Claim(env, st, sender, time, t, signature, seed).Err?
    ensures ClaimRank(Claim(env, st, sender, time, t, signature, seed).error) <= ClaimRank(e)
  {
  }

  lemma ClaimFollowsChecks(env: Env, st: State, sender: Address, time: nat, t: Ticket, signature: bytes, seed: Bytes32)
    returns (i: nat)
    requires Inv(env, st)
    ensures FirstClaimFault(env, st, sender, time, t, signature, seed, i)
    ensures var r := Claim(env, st, sender, time, t, signature, seed);
            if i < |CLAIM_CHECKS| then r == Err(CLAIM_CHECKS[i]) else r.Ok?
  {
    ClaimSucceedsIff(env, st, sender, time, t, signature, seed);
    var r := Claim(env, st, sender, time, t, signature, seed);
    i := if r.Ok? then |CLAIM_CHECKS| else ClaimRank(r.error);
    if r.Err? {
      ErrorIsFault(env, st, sender, time, t, signature, seed);
    }
    forall j | 0 <= j < i ensures !ClaimFault(env, st, sender, time, t, signature, seed, CLAIM_CHECKS[j]) {
      RankOfCheck(j);
      if ClaimFault(env, st, sender, time, t, signature, seed, CLAIM_CHECKS[j]) {
        EarlierChecksPass(env, st, sender, time, t, signature, seed, CLAIM_CHECKS[j]);
      }
    }
  }

  lemma RankOfCheck(j: nat)
    requires j < |CLAIM_CHECKS|
    ensures CLAIM_CHECKS[j] in CLAIM_CHECKS && ClaimRank(CLAIM_CHECKS[j]) == j
  {
  }

  lemma ClaimRevertsAtFirstFault(env: Env, st: State, sender: Address, time: nat, t: Ticket, signature: bytes,
                                 seed: Bytes32, i: nat)
    requires Inv(env, st) && i < |CLAIM_CHECKS|
    ensures Claim(env, st, sender, time, t, signature, seed) == Err(CLAIM_CHECKS[i])
            <==> FirstClaimFault(env, st, sender, time, t, signature, seed, i)
  {
    var k := ClaimFollowsChecks(env, st, sender, time, t, signature, seed);
    DistinctClaimChecks();
  }

  lemma DistinctClaimChecks()
    ensures forall i, j | 0 <= i < j < |CLAIM_CHECKS| :: CLAIM_CHECKS[i] != CLAIM_CHECKS[j]
  {
  }

  // -------------------------------------------------------------- requestClose and withdraw

  /** Exactly the client of a channel may ask for its close, once. */
  lemma CloseSucceedsIff(env: Env, st: State, sender: Address, time: nat, id: Bytes32)
    requires Inv(env, st) && sender != ZERO_ADDRESS
    ensures RequestClose(env, st, sender, time, id).Ok?
            <==> id in st.channels && st.channels[id].client == sender && st.channels[id].closeRequestedAt == 0
  {
  }

  const CLOSE_CHECKS: seq<Error> := [Unauthorized, CloseAlreadyRequested]

  predicate CloseFault(st: State, sender: Address, id: Bytes32, e: Error)
  {
    match e
    case Unauthorized => id !in st.channels || sender != st.channels[id].client
    case CloseAlreadyRequested => id in st.channels && st.channels[id].closeRequestedAt > 0
    case _ => false
  }

  lemma CloseRevertsAtFirstFault(env: Env, st: State, sender: Address, time: nat, id: Bytes32, i: nat)
    requires Inv(env, st) && sender != ZERO_ADDRESS && i < |CLOSE_CHECKS|
    ensures RequestClose(env, st, sender, time, id) == Err(CLOSE_CHECKS[i])
            <==> && CloseFault(st, sender, id, CLOSE_CHECKS[i])
                 && forall j | 0 <= j < i :: !CloseFault(st, sender, id, CLOSE_CHECKS[j])
  {
    assert CLOSE_CHECKS[0] == Unauthorized;
  }

  const WITHDRAW_CHECKS: seq<Error> := [Unauthorized, CloseNotRequested, WithdrawalLocked]

  predicate WithdrawFault(st: State, sender: Address, time: nat, id: Bytes32, e: Error)
  {
    match e
    case Unauthorized => id !in st.channels || sender != st.channels[id].client
    case CloseNotRequested => id in st.channels && st.channels[id].closeRequestedAt == 0
    case WithdrawalLocked => id in st.channels && time - st.channels[id].closeRequestedAt < 86400
    case _ => false
  }

  lemma WithdrawRevertsAtFirstFault(env: Env, st: State, sender: Address, time: nat, id: Bytes32, i: nat)
    requires Inv(env, st) && sender != ZERO_ADDRESS && i < |WITHDRAW_CHECKS|
    ensures Withdraw(env, st, sender, time, id) == Err(WITHDRAW_CHECKS[i])
            <==> && WithdrawFault(st, sender, time, id, WITHDRAW_CHECKS[i])
                 && forall j | 0 <= j < i :: !WithdrawFault(st, sender, time, id, WITHDRAW_CHECKS[j])
  {
    WithdrawSucceedsIff(env, st, sender, time, id);
    assert WITHDRAW_CHECKS[0] == Unauthorized && WITHDRAW_CHECKS[1] == CloseNotRequested;
  }

  // ------------------------------------------------------------------------------ identities

  /** Unless two pairs collide, each pair of a client and a provider has its own channel. */
  lemma ChannelIdInjective(o: Oracle, client: Address, provider: Address, client': Address, provider': Address)
    requires CollisionFree(o, {client + provider, client' + provider'})
    ensures ChannelId(o, client, provider) == ChannelId(o, client', provider')
            <==> client == client' && provider == provider'
  {
    if ChannelId(o, client, provider) == ChannelId(o, client', provider') {
      ConcatInjective(client, provider, client', provider');
    }
  }

  /** What the token's own calls do, and that they leave the contract alone. */
  lemma TokenCallEffect(env: Env, st: State, c: Call, a: Address, b: Address)
    requires c.ApproveTokens? || c.TransferTokens? || c.TransferTokensFrom? || c.MintTokens?
    ensures var st' := Apply(env, st, c);
            && st'.channels == st.channels && st'.nullifiers == st.nullifiers
            && match c
               case ApproveTokens(sender, _, spender, amount) =>
                 && st'.token.BalanceOf(a) == st.token.BalanceOf(a)
                 && st'.token.Allowance(a, b)
                    == (if a == sender && b == spender then amount else st.token.Allowance(a, b))
               case TransferTokens(sender, _, to, amount) =>
                 if amount <= st.token.BalanceOf(sender) then Moved(st.token, st'.token, sender, to, amount)
                 else st' == st
               case TransferTokensFrom(sender, _, from, to, amount) =>
                 if amount <= st.token.BalanceOf(from) && amount <= st.token.Allowance(from, sender)
                 then Moved(st.token, st'.token, from, to, amount)
                 else st' == st
               case MintTokens(_, _, to, amount) =>
                 && st'.token.BalanceOf(a) == st.token.BalanceOf(a) + (if a == to then amount else 0)
                 && st'.token.Allowance(a, b) == st.token.Allowance(a, b)
               case _ => true
  {
    match c
    case ApproveTokens(sender, _, spender, amount) => ApproveSets(st.token, sender, spender, amount, a, b);
    case TransferTokens(sender, _, to, amount) => TransferMoves(st.token, sender, to, amount);
    case TransferTokensFrom(sender, _, from, to, amount) => TransferFromMoves(st.token, sender, from, to, amount);
    case _ =>
  }
}
