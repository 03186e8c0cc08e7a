/** The token as an EIP-20 ledger: balances and allowances, no fees and no callbacks. */
module Erc20 {
  import opened Bytes

  datatype Ledger = Ledger(balances: map<Address, nat>, allowances: map<(Address, Address), nat>)
  {
    function BalanceOf(a: Address): nat {
      if a in balances then balances[a] else 0
    }

    function Allowance(owner: Address, spender: Address): nat {
      if (owner, spender) in allowances then allowances[(owner, spender)] else 0
    }

    function Credit(a: Address, amount: nat): Ledger {
      this.(balances := balances[a := BalanceOf(a) + amount])
    }

    function Debit(a: Address, amount: nat): Ledger
      requires amount <= BalanceOf(a)
    {
      this.(balances := balances[a := BalanceOf(a) - amount])
    }

    function Approve(owner: Address, spender: Address, amount: nat): Ledger {
      this.(allowances := allowances[(owner, spender) := amount])
    }

    /** None where the token reverts. */
    function Transfer(from: Address, to: Address, amount: nat): Option<Ledger> {
      if BalanceOf(from) < amount then None
      else Some(Debit(from, amount).Credit(to, amount))
    }

    /** An allowance of 2^256 - 1 is unlimited and is not spent. */
    function TransferFrom(spender: Address, from: Address, to: Address, amount: nat): Option<Ledger> {
      var allowed := Allowance(from, spender);
      if allowed < amount then None
      else if allowed >= TWO_256 - 1 then Transfer(from, to, amount)
      else Approve(from, spender, allowed - amount).Transfer(from, to, amount)
    }
  }

  /** What a move of tokens does to every balance. */
  ghost predicate Moved(before: Ledger, after: Ledger, from: Address, to: Address, amount: nat)
  {
    && amount <= before.BalanceOf(from)
    && forall a: Address ::
         after.BalanceOf(a) == before.BalanceOf(a) - (if a == from then amount else 0) + (if a == to then amount else 0)
  }

  /** No allowance has grown. */
  ghost predicate NoNewAllowance(before: Ledger, after: Ledger)
  {
    forall owner: Address, spender: Address :: after.Allowance(owner, spender) <= before.Allowance(owner, spender)
  }

  lemma TransferMoves(l: Ledger, from: Address, to: Address, amount: nat)
    ensures l.Transfer(from, to, amount).Some? <==> amount <= l.BalanceOf(from)
    ensures l.Transfer(from, to, amount).Some? ==>
              var l' := l.Transfer(from, to, amount).value;
              Moved(l, l', from, to, amount) && NoNewAllowance(l, l')
  {
  }

  lemma TransferFromMoves(l: Ledger, spender: Address, from: Address, to: Address, amount: nat)
    ensures l.TransferFrom(spender, from, to, amount).Some?
            <==> amount <= l.BalanceOf(from) && amount <= l.Allowance(from, spender)
    ensures l.TransferFrom(spender, from, to, amount).Some? ==>
              var l' := l.TransferFrom(spender, from, to, amount).value;
              && Moved(l, l', from, to, amount) && NoNewAllowance(l, l')
              && l'.Allowance(from, spender)
                 == l.Allowance(from, spender) - (if l.Allowance(from, spender) >= TWO_256 - 1 then 0 else amount)
  {
    var allowed := l.Allowance(from, spender);
    var l1 := l.Approve(from, spender, allowed - if amount <= allowed then amount else 0);
    forall a: Address ensures l1.BalanceOf(a) == l.BalanceOf(a) {
    }
    assert NoNewAllowance(l, l1);
    TransferMoves(l1, from, to, amount);
    TransferMoves(l, from, to, amount);
  }

  /** An approval sets one allowance and nothing else. */
  lemma ApproveSets(l: Ledger, owner: Address, spender: Address, amount: nat, a: Address, b: Address)
    ensures var l' := l.Approve(owner, spender, amount);
            && l'.Allowance(a, b) == (if a == owner && b == spender then amount else l.Allowance(a, b))
            && l'.BalanceOf(a) == l.BalanceOf(a)
  {
  }
}
