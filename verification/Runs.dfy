/** Whole histories of the escrow: calls on the contract by anyone, interleaved with anything
    else that may happen to the token. */
module Runs {
  import opened Bytes
  import opened Abi
  import opened Erc20
  import opened Escrow

  /** One transaction: five on the contract, four on the token. */
  datatype Call =
    | OpenChannel(sender: Address, time: nat, provider: Address, amount: u256)
    | DepositFunds(sender: Address, time: nat, id: Bytes32, amount: u256)
    | ClaimTicket(sender: Address, time: nat, t: Ticket, signature: bytes, seed: Bytes32)
    | CloseChannel(sender: Address, time: nat, id: Bytes32)
    | WithdrawChannel(sender: Address, time: nat, id: Bytes32)
    | ApproveTokens(sender: Address, time: nat, spender: Address, amount: u256)
    | TransferTokens(sender: Address, time: nat, to: Address, amount: u256)
    | TransferTokensFrom(sender: Address, time: nat, from: Address, to: Address, amount: u256)
    | MintTokens(sender: Address, time: nat, to: Address, amount: u256)

  /** Senders are accounts other than the zero address and the escrow itself, which makes no
      such call; block times are positive and fit 64 bits. */
  ghost predicate Valid(env: Env, c: Call)
  {
    c.sender != ZERO_ADDRESS && c.sender != env.self && 0 < c.time < TWO_64
  }

  function TokenOutcome(st: State, token: Option<Ledger>): Outcome {
    if token.None? then Err(TransferFailed) else Ok(st.(token := token.value))
  }

  function Step(env: Env, st: State, c: Call): Outcome {
    match c
    case OpenChannel(sender, _, provider, amount) => Open(env, st, sender, provider, amount)
    case DepositFunds(sender, _, id, amount) => Deposit(env, st, sender, id, amount)
    case ClaimTicket(sender, time, t, signature, seed) => Claim(env, st, sender, time, t, signature, seed)
    case CloseChannel(sender, time, id) => RequestClose(env, st, sender, time, id)
    case WithdrawChannel(sender, time, id) => Withdraw(env, st, sender, time, id)
    case ApproveTokens(sender, _, spender, amount) => Ok(st.(token := st.token.Approve(sender, spender, amount)))
    case TransferTokens(sender, _, to, amount) => TokenOutcome(st, st.token.Transfer(sender, to, amount))
    case TransferTokensFrom(sender, _, from, to, amount) =>
      TokenOutcome(st, st.token.TransferFrom(sender, from, to, amount))
    case MintTokens(_, _, to, amount) => Ok(st.(token := st.token.Credit(to, amount)))
  }

  /** A reverted call leaves the state as it was. */
  function Apply(env: Env, st: State, c: Call): State {
    match Step(env, st, c)
    case Ok(st') => st'
    case Err(_) => st
  }

  function Run(env: Env, st: State, calls: seq<Call>): State {
    if calls == [] then st
    else Apply(env, Run(env, st, calls[..|calls| - 1]), calls[|calls| - 1])
  }

  /** The state in which the k-th call of a history executes. */
  function Before(env: Env, st: State, calls: seq<Call>, k: nat): State
    requires k <= |calls|
  {
    Run(env, st, calls[..k])
  }

  lemma BeforeStep(env: Env, st: State, calls: seq<Call>, k: nat)
    requires k < |calls|
    ensures Before(env, st, calls, k + 1) == Apply(env, Before(env, st, calls, k), calls[k])
    ensures Before(env, st, calls, |calls|) == Run(env, st, calls)
  {
    assert calls[..k + 1][..k] == calls[..k];
    assert calls[..|calls|] == calls;
  }

  ghost predicate Succeeds(env: Env, st: State, calls: seq<Call>, k: nat)
    requires k < |calls|
  {
    Step(env, Before(env, st, calls, k), calls[k]).Ok?
  }

  /** A newly deployed contract: no channels, no nullifiers, nothing approved in its name. */
  ghost predicate Deployed(env: Env, st: State)
  {
    st.channels == map[] && st.nullifiers == {} && NothingApproved(env, st.token)
  }

  ghost predicate NothingApproved(env: Env, token: Ledger)
  {
    forall spender: Address :: token.Allowance(env.self, spender) == 0
  }

  // ---------------------------------------------------------- the sum of the balances

  ghost function TotalBalance(m: map<Bytes32, Channel>): nat
  {
    if m == map[] then 0
    else
      var id :| id in m;
      m[id].balance + TotalBalance(m - {id})
  }

  /** The sum does not depend on the order in which channels are added up. */
  lemma {:induction false} TotalSplit(m: map<Bytes32, Channel>, id: Bytes32)
    requires id in m
    ensures TotalBalance(m) == m[id].balance + TotalBalance(m - {id})
    decreases |m|
  {
    var first :| first in m && TotalBalance(m) == m[first].balance + TotalBalance(m - {first});
    if first != id {
      TotalSplit(m - {first}, id);
      TotalSplit(m - {id}, first);
      assert m - {first} - {id} == m - {id} - {first};
    }
  }

  lemma TotalUpdate(m: map<Bytes32, Channel>, id: Bytes32, ch: Channel)
    ensures TotalBalance(m[id := ch]) == TotalBalance(m - {id}) + ch.balance
  {
    TotalSplit(m[id := ch], id);
    assert m[id := ch] - {id} == m - {id};
  }

  // ------------------------------------------------------------------- the invariant

  /** Every channel has a client, nobody may spend the escrow's tokens, and the escrow holds
      at least what its channels say. */
  ghost predicate Inv(env: Env, st: State)
  {
    && (forall id :: id in st.channels ==> st.channels[id].client != ZERO_ADDRESS)
    && NothingApproved(env, st.token)
    && TotalBalance(st.channels) <= st.token.BalanceOf(env.self)
  }

  /** A channel's own balance is always covered by the escrow's tokens. */
  lemma BalanceCovered(env: Env, st: State, id: Bytes32)
    requires Inv(env, st) && id in st.channels
    ensures st.channels[id].balance <= st.token.BalanceOf(env.self)
  {
    TotalSplit(st.channels, id);
  }

  /** What one call adds to each side of the escrow's accounts. */
  datatype Books = Books(deposited: nat, claimed: nat, refunded: nat, donated: nat)

  const NO_BOOKS := Books(0, 0, 0, 0)

  ghost function Entry(env: Env, st: State, c: Call): Books
  {
    if Step(env, st, c).Err? then NO_BOOKS
    else
      match c
      case OpenChannel(_, _, _, amount) => Books(amount, 0, 0, 0)
      case DepositFunds(_, _, _, amount) => Books(amount, 0, 0, 0)
      case ClaimTicket(_, _, t, _, _) => Books(0, t.faceValue, 0, 0)
      case WithdrawChannel(_, _, id) => Books(0, 0, st.Lookup(id).balance, 0)
      case TransferTokens(_, _, to, amount) => Books(0, 0, 0, if to == env.self then amount else 0)
      case TransferTokensFrom(_, _, _, to, amount) => Books(0, 0, 0, if to == env.self then amount else 0)
      case MintTokens(_, _, to, amount) => Books(0, 0, 0, if to == env.self then amount else 0)
      case _ => NO_BOOKS
  }

  ghost function BooksOf(env: Env, st: State, calls: seq<Call>): Books
  {
    if calls == [] then NO_BOOKS
    else
      var b := BooksOf(env, st, calls[..|calls| - 1]);
      var e := Entry(env, Run(env, st, calls[..|calls| - 1]), calls[|calls| - 1]);
      Books(b.deposited + e.deposited, b.claimed + e.claimed, b.refunded + e.refunded, b.donated + e.donated)
  }

  /** The invariant is kept and both totals move by the entry. */
  ghost predicate Booked(env: Env, st: State, st': State, e: Books)
  {
    && Inv(env, st')
    && TotalBalance(st'.channels) == TotalBalance(st.channels) + e.deposited - e.claimed - e.refunded
    && st'.token.BalanceOf(env.self)
       == st.token.BalanceOf(env.self) + e.deposited + e.donated - e.claimed - e.refunded
  }

  /** Putting a channel in place moves the total by the change of that one balance. */
  lemma TotalReplace(m: map<Bytes32, Channel>, id: Bytes32, ch: Channel)
    ensures TotalBalance(m[id := ch]) == TotalBalance(m) - (if id in m then m[id].balance else 0) + ch.balance
  {
    TotalUpdate(m, id, ch);
    if id in m {
      TotalSplit(m, id);
    } else {
      assert m - {id} == m;
    }
  }

  /** Tokens that come in with a channel's new balance. */
  lemma InflowBooked(env: Env, st: State, st': State, id: Bytes32, ch: Channel, from: Address, amount: nat)
    requires Inv(env, st) && from != env.self
    requires st'.channels == st.channels[id := ch] && ch.client != ZERO_ADDRESS
    requires ch.balance == st.Lookup(id).balance + amount
    requires Moved(st.token, st'.token, from, env.self, amount) && NoNewAllowance(st.token, st'.token)
    ensures Booked(env, st, st', Books(amount, 0, 0, 0))
  {
    TotalReplace(st.channels, id, ch);
    assert forall spender: Address :: st'.token.Allowance(env.self, spender) <= st.token.Allowance(env.self, spender);
  }

  /** Tokens that go out of a channel's balance. */
  lemma OutflowBooked(env: Env, st: State, st': State, id: Bytes32, ch: Channel, to: Address, amount: nat)
    requires Inv(env, st) && to != env.self
    requires st'.channels == st.channels[id := ch] && ch.client != ZERO_ADDRESS
    requires ch.balance + amount == st.Lookup(id).balance
    requires Moved(st.token, st'.token, env.self, to, amount) && NoNewAllowance(st.token, st'.token)
    ensures Booked(env, st, st', Books(0, amount, 0, 0))
  {
    TotalReplace(st.channels, id, ch);
    assert forall spender: Address :: st'.token.Allowance(env.self, spender) <= st.token.Allowance(env.self, spender);
  }

  lemma OpenBooked(env: Env, st: State, c: Call)
    requires Inv(env, st) && Valid(env, c) && c.OpenChannel? && Step(env, st, c).Ok?
    ensures Booked(env, st, Apply(env, st, c), Entry(env, st, c))
  {
    var id := ChannelId(env.oracle, c.sender, c.provider);
    TransferFromMoves(st.token, env.self, c.sender, env.self, c.amount);
    InflowBooked(env, st, Apply(env, st, c), id, Channel(c.sender, c.provider, c.amount, 0), c.sender, c.amount);
  }

  lemma DepositBooked(env: Env, st: State, c: Call)
    requires Inv(env, st) && Valid(env, c) && c.DepositFunds? && Step(env, st, c).Ok?
    ensures Booked(env, st, Apply(env, st, c), Entry(env, st, c))
  {
    var ch := st.Lookup(c.id);
    TransferFromMoves(st.token, env.self, c.sender, env.self, c.amount);
    InflowBooked(env, st, Apply(env, st, c), c.id, ch.(balance := ch.balance + c.amount), c.sender, c.amount);
  }

  lemma ClaimBooked(env: Env, st: State, c: Call)
    requires Inv(env, st) && Valid(env, c) && c.ClaimTicket? && Step(env, st, c).Ok?
    ensures Booked(env, st, Apply(env, st, c), Entry(env, st, c))
  {
    var ch := st.Lookup(c.t.channelId);
    TransferMoves(st.token, env.self, ch.provider, c.t.faceValue);
    OutflowBooked(env, st, Apply(env, st, c), c.t.channelId, ch.(balance := ch.balance - c.t.faceValue), c.sender,
                  c.t.faceValue);
  }

  lemma CloseBooked(env: Env, st: State, c: Call)
    requires Inv(env, st) && Valid(env, c) && c.CloseChannel? && Step(env, st, c).Ok?
    ensures Booked(env, st, Apply(env, st, c), Entry(env, st, c))
  {
    TotalReplace(st.channels, c.id, st.Lookup(c.id).(closeRequestedAt := c.time % TWO_64));
  }

  lemma WithdrawBooked(env: Env, st: State, c: Call)
    requires Inv(env, st) && Valid(env, c) && c.WithdrawChannel? && Step(env, st, c).Ok?
    ensures Booked(env, st, Apply(env, st, c), Entry(env, st, c))
  {
    TotalSplit(st.channels, c.id);
    TransferMoves(st.token, env.self, c.sender, st.Lookup(c.id).balance);
  }

  lemma TokenCallBooked(env: Env, st: State, c: Call)
    requires Inv(env, st) && Valid(env, c) && Step(env, st, c).Ok?
    requires c.ApproveTokens? || c.TransferTokens? || c.TransferTokensFrom? || c.MintTokens?
    ensures Booked(env, st, Apply(env, st, c), Entry(env, st, c))
  {
    var token' := Apply(env, st, c).token;
    match c
    case ApproveTokens(sender, _, spender, amount) =>
      assert forall a: Address :: token'.BalanceOf(a) == st.token.BalanceOf(a);
      assert forall b: Address :: token'.Allowance(env.self, b) == st.token.Allowance(env.self, b);
    case TransferTokens(sender, _, to, amount) => TransferMoves(st.token, sender, to, amount);
    case TransferTokensFrom(sender, _, from, to, amount) =>
      TransferFromMoves(st.token, sender, from, to, amount);
      assert from == env.self ==> amount == 0;
    case MintTokens(_, _, to, amount) =>
      assert forall b: Address :: token'.Allowance(env.self, b) == st.token.Allowance(env.self, b);
  }

  /** One call keeps the invariant and moves both totals by its entry. */
  lemma StepKeepsInv(env: Env, st: State, c: Call)
    requires Inv(env, st) && Valid(env, c)
    ensures Booked(env, st, Apply(env, st, c), Entry(env, st, c))
  {
    if Step(env, st, c).Ok? {
      match c
      case OpenChannel(_, _, _, _) => OpenBooked(env, st, c);
      case DepositFunds(_, _, _, _) => DepositBooked(env, st, c);
      case ClaimTicket(_, _, _, _, _) => ClaimBooked(env, st, c);
      case CloseChannel(_, _, _) => CloseBooked(env, st, c);
      case WithdrawChannel(_, _, _) => WithdrawBooked(env, st, c);
      case _ => TokenCallBooked(env, st, c);
    }
  }

  lemma {:induction false} RunKeepsInv(env: Env, st: State, calls: seq<Call>)
    requires Inv(env, st)
    requires forall c | c in calls :: Valid(env, c)
    ensures Inv(env, Run(env, st, calls))
  {
    if calls != [] {
      RunKeepsInv(env, st, calls[..|calls| - 1]);
      StepKeepsInv(env, Run(env, st, calls[..|calls| - 1]), calls[|calls| - 1]);
    }
  }

  lemma DeployedInv(env: Env, st: State)
    requires Deployed(env, st)
    ensures Inv(env, st)
  {
  }

  /** Conservation over every history: the channel balances add up to what was deposited less
      what was claimed and refunded; the escrow's tokens exceed them by exactly what it held
      before and was given on top. So it can always pay what it owes. */
  lemma {:induction false} Conservation(env: Env, st: State, calls: seq<Call>)
    requires Deployed(env, st)
    requires forall c | c in calls :: Valid(env, c)
    ensures var b, st' := BooksOf(env, st, calls), Run(env, st, calls);
            && TotalBalance(st'.channels) == b.deposited - b.claimed - b.refunded
            && st'.token.BalanceOf(env.self)
               == TotalBalance(st'.channels) + st.token.BalanceOf(env.self) + b.donated
    ensures Inv(env, Run(env, st, calls))
  {
    if calls != [] {
      var front := calls[..|calls| - 1];
      Conservation(env, st, front);
      StepKeepsInv(env, Run(env, st, front), calls[|calls| - 1]);
    } else {
      DeployedInv(env, st);
    }
  }
}
