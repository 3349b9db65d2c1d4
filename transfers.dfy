/**
 Transfers between accounts: the record kept in the pending pool, the
 admissibility check made before a transfer is accepted, and its effect on
 the balance table.
 */
module Transfers {
  import opened Accounts

  /** One accepted transfer; immutable once recorded. */
  datatype Transfer = Transfer(sender: string, receiver: string, amount: int)

  /** The outcome of the admissibility check, in the order the checks are made. */
  datatype Verdict = Admit | RejectNonPositive | RejectInsufficient

  /** Both parties of a submission, provisioned in the order sender, receiver. */
  function ProvisionParties(b: Balances, sender: string, receiver: string): (r: Balances)
    ensures r.Keys == b.Keys + {sender, receiver}
    ensures forall k :: k in b ==> r[k] == b[k]
    ensures forall k :: k in r && k !in b ==> r[k] == DefaultBalance
  {
    Provision(Provision(b, sender, DefaultBalance), receiver, DefaultBalance)
  }

  /**
   Decides a transfer against an already provisioned table: a non-positive
   amount is refused first; then a sender other than the privileged account
   that holds less than the amount is refused.
   */
  function Validate(b: Balances, sender: string, amount: int): (v: Verdict)
    requires amount > 0 && sender != BankNetwork ==> sender in b
    ensures v == Admit <==> amount > 0 && (sender == BankNetwork || b[sender] >= amount)
    ensures v == RejectNonPositive <==> amount <= 0
  {
    if amount <= 0 then RejectNonPositive
    else if sender != BankNetwork && b[sender] < amount then RejectInsufficient
    else Admit
  }

  /**
   Applies an admitted transfer: the sender is debited unless it is the
   privileged account, then the receiver is credited. A transfer to oneself
   therefore leaves an ordinary account as it was.
   */
  function Settle(b: Balances, sender: string, receiver: string, amount: int): (r: Balances)
    requires (sender != BankNetwork ==> sender in b) && receiver in b
    ensures r.Keys == b.Keys && |r| == |b|
    ensures forall k :: k in b ==>
      r[k] == b[k]
              - (if k == sender && sender != BankNetwork then amount else 0)
              + (if k == receiver then amount else 0)
  {
    var debited := if sender != BankNetwork then b[sender := b[sender] - amount] else b;
    debited[receiver := debited[receiver] + amount]
  }

  /**
   A transfer conserves the total, except that one sent by the privileged
   account creates `amount` new coins.
   */
  lemma SettleTotal(b: Balances, sender: string, receiver: string, amount: int)
    requires (sender != BankNetwork ==> sender in b) && receiver in b
    ensures Total(Settle(b, sender, receiver, amount))
         == Total(b) + (if sender == BankNetwork then amount else 0)
  {
    if sender == BankNetwork {
      assert Settle(b, sender, receiver, amount) == b[receiver := b[receiver] + amount];
      TotalSet(b, receiver, b[receiver] + amount);
    } else {
      var debited := b[sender := b[sender] - amount];
      assert Settle(b, sender, receiver, amount) == debited[receiver := debited[receiver] + amount];
      TotalSet(b, sender, b[sender] - amount);
      TotalSet(debited, receiver, debited[receiver] + amount);
    }
  }

  /**
   An admitted transfer never drives an account below zero: only an ordinary
   sender is debited, and only when it holds at least the amount.
   */
  lemma SettleNonNegative(b: Balances, sender: string, receiver: string, amount: int)
    requires sender in b && receiver in b && NonNegative(b)
    requires Validate(b, sender, amount) == Admit
    ensures NonNegative(Settle(b, sender, receiver, amount))
  {
  }

  /** An admitted transfer never lowers the privileged account's balance. */
  lemma SettleKeepsBank(b: Balances, sender: string, receiver: string, amount: int)
    requires sender in b && receiver in b && BankNetwork in b
    requires Validate(b, sender, amount) == Admit
    ensures Settle(b, sender, receiver, amount)[BankNetwork] >= b[BankNetwork]
  {
  }

  /** Coins created by the privileged account's transfers in `ts`. */
  function Minted(ts: seq<Transfer>): (m: int)
  {
    if ts == [] then 0
    else
      var last := ts[|ts| - 1];
      Minted(ts[..|ts| - 1]) + (if last.sender == BankNetwork then last.amount else 0)
  }

  /** Minting is additive over a history split in two. */
  lemma {:induction false} MintedAppend(a: seq<Transfer>, c: seq<Transfer>)
    ensures Minted(a + c) == Minted(a) + Minted(c)
    decreases |c|
  {
    if c != [] {
      var n := |c| - 1;
      assert (a + c)[..|a + c| - 1] == a + c[..n];
      MintedAppend(a, c[..n]);
    } else {
      assert a + c == a;
    }
  }
}
