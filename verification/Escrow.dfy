/** The escrow contract: what each transaction does to the channels, the nullifiers and the
    token ledger, and when it reverts instead. */
module Escrow {
  import opened Bytes
  import opened Abi
  import opened Eip712
  import opened Threshold
  import opened Erc20
  import opened Verifier

  const WITHDRAWAL_DELAY: nat := 86400

  datatype Channel = Channel(client: Address, provider: Address, balance: u256, closeRequestedAt: u64)

  /** What an absent mapping entry reads as. */
  const NO_CHANNEL := Channel(ZERO_ADDRESS, ZERO_ADDRESS, 0, 0)

  datatype Error =
    | InvalidProviderAddress | AmountNotPositive | TransferFailed | ArithmeticPanic | SignatureReverted
    | InvalidChannel | ChannelAlreadyExists | InsufficientEscrow | TicketExpired | TicketAlreadyClaimed
    | InvalidTicketSigner | InvalidProviderSeed | NonWinningTicket | CloseAlreadyRequested
    | CloseNotRequested | WithdrawalLocked | Unauthorized

  /** What is fixed when the contract is deployed. */
  datatype Env = Env(oracle: Oracle, self: Address, separator: Bytes32)

  function ChannelAt(channels: map<Bytes32, Channel>, id: Bytes32): Channel {
    if id in channels then channels[id] else NO_CHANNEL
  }

  datatype State = State(channels: map<Bytes32, Channel>, nullifiers: set<Bytes32>, token: Ledger)
  {
    function Lookup(id: Bytes32): Channel {
      ChannelAt(channels, id)
    }
  }

  /** A committed state, or a revert that leaves the old one. */
  type Outcome = Result<State, Error>

  function ChannelId(o: Oracle, client: Address, provider: Address): Bytes32 {
    o.keccak(client + provider)
  }

  /** abi.encodePacked(bytes32 channelId, uint64 nonce). */
  function NullifierKey(id: Bytes32, nonce: u64): bytes {
    id + ToBE(nonce, 8)
  }

  function Nullifier(o: Oracle, id: Bytes32, nonce: u64): Bytes32 {
    o.keccak(NullifierKey(id, nonce))
  }

  // ------------------------------------------------------- the transactions, on values

  function Open(env: Env, st: State, sender: Address, provider: Address, amount: u256): Outcome {
    var id := ChannelId(env.oracle, sender, provider);
    if provider == ZERO_ADDRESS then Err(InvalidProviderAddress)
    else if amount == 0 then Err(AmountNotPositive)
    else if st.Lookup(id).client != ZERO_ADDRESS then Err(ChannelAlreadyExists)
    else
      match st.token.TransferFrom(env.self, sender, env.self, amount)
      case None => Err(TransferFailed)
      case Some(token) =>
        Ok(State(st.channels[id := Channel(sender, provider, amount, 0)], st.nullifiers, token))
  }

  function Deposit(env: Env, st: State, sender: Address, id: Bytes32, amount: u256): Outcome {
    var ch := st.Lookup(id);
    if ch.client == ZERO_ADDRESS then Err(InvalidChannel)
    else if amount == 0 then Err(AmountNotPositive)
    else if ch.balance + amount >= TWO_256 then Err(ArithmeticPanic)
    else
      match st.token.TransferFrom(env.self, sender, env.self, amount)
      case None => Err(TransferFailed)
      case Some(token) =>
        Ok(State(st.channels[id := ch.(balance := ch.balance + amount)], st.nullifiers, token))
  }

  function Claim(env: Env, st: State, sender: Address, time: nat, t: Ticket, signature: bytes, seed: Bytes32): Outcome {
    var o := env.oracle;
    var ch := st.Lookup(t.channelId);
    var nullifier := Nullifier(o, t.channelId, t.nonce);
    var digest := ChainDigest(o, env.separator, t);
    if ch.client == ZERO_ADDRESS then Err(InvalidChannel)
    else if ch.provider != sender then Err(Unauthorized)
    else if time > t.expiry then Err(TicketExpired)
    else if ch.balance < t.faceValue then Err(InsufficientEscrow)
    else if nullifier in st.nullifiers then Err(TicketAlreadyClaimed)
    else if o.keccak(seed) != t.providerCommitment then Err(InvalidProviderSeed)
    else if !o.chainAccepts(signature) || o.recover(digest, signature).None? then Err(SignatureReverted)
    else if o.recover(digest, signature).value != ch.client then Err(InvalidTicketSigner)
    else if ChainTarget(t.winProbNumerator, t.winProbDenominator).None? then Err(ArithmeticPanic)
    else if !ChainWins(t.winProbNumerator, t.winProbDenominator, CombinedHash(o, digest, t.clientSeed, seed)) then
      Err(NonWinningTicket)
    else
      match st.token.Transfer(env.self, ch.provider, t.faceValue)
      case None => Err(TransferFailed)
      case Some(token) =>
        Ok(State(st.channels[t.channelId := ch.(balance := ch.balance - t.faceValue)],
                 st.nullifiers + {nullifier}, token))
  }

  /** The stored close time is the block time cut to 64 bits. */
  function RequestClose(env: Env, st: State, sender: Address, time: nat, id: Bytes32): Outcome {
    var ch := st.Lookup(id);
    if ch.client != sender then Err(Unauthorized)
    else if ch.closeRequestedAt != 0 then Err(CloseAlreadyRequested)
    else Ok(st.(channels := st.channels[id := ch.(closeRequestedAt := time % TWO_64)]))
  }

  function Withdraw(env: Env, st: State, sender: Address, time: nat, id: Bytes32): Outcome {
    var ch := st.Lookup(id);
    if ch.client != sender then Err(Unauthorized)
    else if ch.closeRequestedAt == 0 then Err(CloseNotRequested)
    else if time < ch.closeRequestedAt + WITHDRAWAL_DELAY then Err(WithdrawalLocked)
    else if ch.balance == 0 then Ok(st.(channels := st.channels - {id}))
    else
      match st.token.Transfer(env.self, sender, ch.balance)
      case None => Err(TransferFailed)
      case Some(token) => Ok(State(st.channels - {id}, st.nullifiers, token))
  }

  // -------------------------------------------------------------------- the contract

  class Token {
    var ledger: Ledger

    constructor (ledger: Ledger)
      ensures this.ledger == ledger
    {
      this.ledger := ledger;
    }

    method Transfer(sender: Address, to: Address, amount: nat) returns (ok: bool)
      modifies this
      ensures ok <==> old(ledger).Transfer(sender, to, amount).Some?
      ensures ledger == if ok then old(ledger).Transfer(sender, to, amount).value else old(ledger)
    {
      if ledger.BalanceOf(sender) < amount {
        return false;
      }
      ledger := ledger.Debit(sender, amount);
      ledger := ledger.Credit(to, amount);
      ok := true;
    }

    method TransferFrom(sender: Address, from: Address, to: Address, amount: nat) returns (ok: bool)
      modifies this
      ensures ok <==> old(ledger).TransferFrom(sender, from, to, amount).Some?
      ensures ledger == if ok then old(ledger).TransferFrom(sender, from, to, amount).value else old(ledger)
    {
      var before := ledger;
      var allowed := ledger.Allowance(from, sender);
      if allowed < amount {
        return false;
      }
      if allowed < TWO_256 - 1 {
        ledger := ledger.Approve(from, sender, allowed - amount);
      }
      ok := Transfer(from, to, amount);
      if !ok {
        ledger := before;
      }
    }
  }

  /** A transaction either commits or gives its revert reason. */
  datatype Receipt = Committed | Reverted(error: Error)

  class SPMPEscrow {
    const env: Env
    const token: Token
    var channels: map<Bytes32, Channel>
    var nullifiers: set<Bytes32>

    ghost function View(): State
      reads this, token
    {
      State(channels, nullifiers, token.ledger)
    }

    /** A receipt and the states around it are what the outcome on values says. */
    ghost predicate Matches(outcome: Outcome, receipt: Receipt, before: State)
      reads this, token
    {
      match outcome
      case Ok(st) => receipt == Committed && View() == st
      case Err(e) => receipt == Reverted(e) && View() == before
    }

    constructor (oracle: Oracle, self: Address, chainId: u64, token: Token)
      ensures env == Env(oracle, self, DomainSeparator(oracle, chainId, self)) && this.token == token
      ensures View() == State(map[], {}, token.ledger)
    {
      this.env := Env(oracle, self, DomainSeparator(oracle, chainId, self));
      this.token := token;
      this.channels := map[];
      this.nullifiers := {};
    }

    method OpenChannel(sender: Address, provider: Address, amount: u256) returns (receipt: Receipt)
      modifies this, token
      ensures Matches(Open(env, old(View()), sender, provider, amount), receipt, old(View()))
    {
      if provider == ZERO_ADDRESS { return Reverted(InvalidProviderAddress); }
      if amount == 0 { return Reverted(AmountNotPositive); }
      var channelId := ChannelId(env.oracle, sender, provider);
      if ChannelAt(channels, channelId).client != ZERO_ADDRESS { return Reverted(ChannelAlreadyExists); }
      var before := channels;
      channels := channels[channelId := Channel(sender, provider, amount, 0)];
      var paid := token.TransferFrom(env.self, sender, env.self, amount);
      if !paid {
        channels := before;
        return Reverted(TransferFailed);
      }
      receipt := Committed;
    }

    method DepositFunds(sender: Address, channelId: Bytes32, amount: u256) returns (receipt: Receipt)
      modifies this, token
      ensures Matches(Deposit(env, old(View()), sender, channelId, amount), receipt, old(View()))
    {
      var channel := ChannelAt(channels, channelId);
      if channel.client == ZERO_ADDRESS { return Reverted(InvalidChannel); }
      if amount == 0 { return Reverted(AmountNotPositive); }
      if channel.balance + amount > MAX { return Reverted(ArithmeticPanic); }
      var before := channels;
      channels := channels[channelId := channel.(balance := channel.balance + amount)];
      var paid := token.TransferFrom(env.self, sender, env.self, amount);
      if !paid {
        channels := before;
        return Reverted(TransferFailed);
      }
      receipt := Committed;
    }

    method ClaimTicket(sender: Address, time: nat, t: Ticket, signature: bytes, providerSeed: Bytes32)
      returns (receipt: Receipt)
      modifies this, token
      ensures Matches(Claim(env, old(View()), sender, time, t, signature, providerSeed), receipt, old(View()))
    {
      var channel := ChannelAt(channels, t.channelId);
      if channel.client == ZERO_ADDRESS { return Reverted(InvalidChannel); }
      if channel.provider != sender { return Reverted(Unauthorized); }
      if time > t.expiry { return Reverted(TicketExpired); }
      if channel.balance < t.faceValue { return Reverted(InsufficientEscrow); }
      var nullifier := Nullifier(env.oracle, t.channelId, t.nonce);
      if nullifier in nullifiers { return Reverted(TicketAlreadyClaimed); }
      if env.oracle.keccak(providerSeed) != t.providerCommitment { return Reverted(InvalidProviderSeed); }
      var digest := ChainDigest(env.oracle, env.separator, t);
      if !env.oracle.chainAccepts(signature) { return Reverted(SignatureReverted); }
      var signer := env.oracle.recover(digest, signature);
      if signer.None? { return Reverted(SignatureReverted); }
      if signer.value != channel.client { return Reverted(InvalidTicketSigner); }
      var combinedHash := CombinedHash(env.oracle, digest, t.clientSeed, providerSeed);
      var target := WinTarget(t.winProbNumerator, t.winProbDenominator);
      if target.None? { return Reverted(ArithmeticPanic); }
      if combinedHash >= target.value { return Reverted(NonWinningTicket); }
      var channelsBefore, nullifiersBefore := channels, nullifiers;
      nullifiers := nullifiers + {nullifier};
      channels := channels[t.channelId := channel.(balance := channel.balance - t.faceValue)];
      var paid := token.Transfer(env.self, channel.provider, t.faceValue);
      if !paid {
        channels, nullifiers := channelsBefore, nullifiersBefore;
        return Reverted(TransferFailed);
      }
      receipt := Committed;
    }

    /** `(type(uint256).max / d) * n` in checked arithmetic; None where it panics. */
    method WinTarget(numerator: u32, denominator: u32) returns (target: Option<u256>)
      ensures target == ChainTarget(numerator, denominator)
    {
      if denominator == 0 { return None; }
      var product := (MAX / denominator) * numerator;
      if product > MAX { return None; }
      target := Some(product);
    }

    method RequestChannelClose(sender: Address, time: nat, channelId: Bytes32) returns (receipt: Receipt)
      modifies this
      ensures Matches(RequestClose(env, old(View()), sender, time, channelId), receipt, old(View()))
    {
      var channel := ChannelAt(channels, channelId);
      if channel.client != sender { return Reverted(Unauthorized); }
      if channel.closeRequestedAt != 0 { return Reverted(CloseAlreadyRequested); }
      channels := channels[channelId := channel.(closeRequestedAt := time % TWO_64)];
      receipt := Committed;
    }

    method WithdrawChannel(sender: Address, time: nat, channelId: Bytes32) returns (receipt: Receipt)
      modifies this, token
      ensures Matches(Withdraw(env, old(View()), sender, time, channelId), receipt, old(View()))
    {
      var channel := ChannelAt(channels, channelId);
      if channel.client != sender { return Reverted(Unauthorized); }
      if channel.closeRequestedAt == 0 { return Reverted(CloseNotRequested); }
      if time < channel.closeRequestedAt + WITHDRAWAL_DELAY { return Reverted(WithdrawalLocked); }
      var remaining := channel.balance;
      var before := channels;
      channels := channels - {channelId};
      if remaining > 0 {
        var paid := token.Transfer(env.self, sender, remaining);
        if !paid {
          channels := before;
          return Reverted(TransferFailed);
        }
      }
      receipt := Committed;
    }
  }
}
