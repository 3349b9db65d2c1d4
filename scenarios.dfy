/**
 Client code that drives a ledger through the documented scenarios and
 checks, from the operations' contracts alone, what each step leaves behind.
 */
module Scenarios {
  import opened Accounts
  import opened Transfers
  import opened Chain
  import opened Ledger

  /** The privileged account funds a new account, which then mines a block. */
  method FundThenMine(t0: Timestamp, t1: Timestamp)
  {
    var ledger := new Blockchain(t0);
    var ok, msg := ledger.AddTransaction(BankNetwork, "Alice", 50);
    assert ok && msg == Transferred(BankNetwork, "Alice", 50);
    assert ledger.balances["Alice"] == 150;
    assert ledger.balances[BankNetwork] == BankSeed;
    var block, mined := ledger.MineBlock("Alice", t1);
    assert |ledger.chain| == 2 && ledger.chain[1] == block;
    assert block.index == 1 && block.previousHash == 0;
    assert block.transactions == [Transfer(BankNetwork, "Alice", 50)];
    assert ledger.balances["Alice"] == 160;
    assert ledger.pending == [];
  }

  /** A transfer between two ordinary accounts, the receiver not yet seen. */
  method OrdinaryTransfer(t0: Timestamp)
  {
    var ledger := new Blockchain(t0);
    var ok, msg := ledger.AddTransaction("Bob", "Carol", 30);
    assert ok;
    assert ledger.balances["Bob"] == 70 && ledger.balances["Carol"] == 130;
    assert ledger.pending == [Transfer("Bob", "Carol", 30)];
  }

  /**
   A non-positive amount is refused and no balance moves; the two parties
   are still provisioned, because provisioning precedes the check.
   */
  method NonPositiveRefused(t0: Timestamp)
  {
    var ledger := new Blockchain(t0);
    var ok, msg := ledger.AddTransaction("Bob", "Carol", -5);
    assert !ok && msg == AmountMustBePositive;
    assert ledger.balances == map[BankNetwork := BankSeed, "Bob" := 100, "Carol" := 100];
    assert ledger.pending == [];
  }

  /** A directly provisioned account can take part in later operations. */
  method ProvisionThenSend(t0: Timestamp)
  {
    var ledger := new Blockchain(t0);
    ledger.EnsureUserBalance("Frank");
    assert ledger.balances["Frank"] == 100;
    ledger.EnsureUserBalance("Frank");
    assert ledger.balances["Frank"] == 100;
    var ok, msg := ledger.AddTransaction("Frank", BankNetwork, 40);
    assert ok && ledger.balances["Frank"] == 60;
  }

  /** An ordinary sender cannot send more than it holds. */
  method InsufficientRefused(t0: Timestamp)
  {
    var ledger := new Blockchain(t0);
    var ok, msg := ledger.AddTransaction("Dave", "Eve", 1000);
    assert !ok && msg == InsufficientBalance("Dave");
    assert ledger.balances["Dave"] == 100 && ledger.balances["Eve"] == 100;
    assert ledger.pending == [];
  }
}
