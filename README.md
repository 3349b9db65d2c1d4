# Bank blockchain simulator: the ledger core

This project models the `Blockchain` class of the bank blockchain simulator
(`app.py`, lines 6-54). It is an in-memory ledger with three parts, all
updated in place:

- a balance table from account name to amount;
- a pending pool: accepted transfers in the order they were accepted;
- a chain of sealed blocks.

It has four operations. Creating a ledger seeds the privileged account
`"Bank Network"` with 1,000,000 and appends a genesis block.
`ensure_user_balance` gives an unseen account 100. `add_transaction`
provisions both parties and validates the transfer. If the transfer is
accepted, it debits the sender, credits the receiver and appends the transfer
to the pool. `mine_block` seals the pool into a new block, empties the pool
and credits the miner with a reward of 10.

The Dafny project is arranged by component:

- `accounts.dfy` (module `Accounts`): the balance table. It holds the
  constants, `Provision` (lazy account creation), the sum of all balances
  (`Total`) and how provisioning changes that sum.
- `transfers.dfy` (module `Transfers`): the `Transfer` record. It holds the
  admissibility check (`Validate`), the effect of an accepted transfer
  (`Settle`) and the coins that privileged transfers create (`Minted`).
- `chain.dfy` (module `Chain`): the `Block` record, the genesis block, the
  block that mining seals (`NextBlock`), the well-formedness of a chain
  (`Linked`) and the transfers sealed in a chain (`Sealed`).
- `ledger.dfy` (module `Ledger`): the class `Blockchain`. Its fields are
  `chain`, `pending` and `balances`. A ghost field `accepted` logs every
  accepted transfer. Beside the class are the ledger invariant and one pure
  lemma per operation showing that the operation preserves it.
- `scenarios.dfy` (module `Scenarios`): client methods that drive a ledger
  through the documented scenarios, using the contracts alone.

The ledger invariant (`Ledger.Invariant`, which `Blockchain.Valid()` applies
to the fields) says:

- The chain is non-empty. Its block indices run 0, 1, 2, … and each later
  block links to the index of the block before it.
- The sealed transfers followed by the pending pool are exactly the accepted
  transfers, in order. No transfer is lost or duplicated.
- Every accepted transfer has a positive amount, and both of its parties
  have a balance.
- No balance is negative, and `"Bank Network"` never drops below its seed.
- The sum of all balances is the seed, plus 100 for every other account,
  plus 10 for every mined block, plus the amounts that `"Bank Network"` has
  sent.

The constructor establishes this invariant. `AddTransaction`, `MineBlock`
and `EnsureUserBalance` with the standard opening balance of 100 preserve
it. So it holds after any sequence of submissions, minings and direct
provisionings at 100.

The model follows the code where it departs from the design one might
expect:

- A design in which a refused submission leaves the balances untouched would
  differ from the code. In the code, both parties are provisioned before the
  checks (app.py:26-27). So a refused submission can still add the sender and
  receiver with 100 each. `AddTransaction` and the scenario
  `NonPositiveRefused` state this.
- A design in which only mining rewards increase the total supply would also
  differ. The code creates coins in two other ways. It gives every newly provisioned
  account 100 (app.py:23). When `"Bank Network"` sends, it credits the
  receiver without debiting the bank (app.py:32-34). `Ledger.SupplyAccounted`
  counts all three sources.
- `previous_hash` is a string holding the previous index. The model keeps it
  as the integer. The genesis block has `"0"` (app.py:18), and block 1 also
  has `str(0)` (app.py:48), so both carry 0.

## Model

| member | source | states |
|---|---|---|
| `Ledger.Blockchain.constructor` | app.py:7-19 | A fresh ledger has exactly one block: index 0, no transactions, previous link 0. The pool is empty, the balances are exactly `{"Bank Network": 1000000}`, and the ledger invariant holds. |
| `Ledger.Blockchain.CreateGenesisBlock` | app.py:13-19 | Appends the genesis block (index 0, the given timestamp, no transactions, link 0) to the chain and changes nothing else. |
| `Chain.GenesisBlock` | app.py:14-19 | The genesis block has index 0, the given timestamp, no transactions and link 0. |
| `Ledger.FreshInvariant` | app.py:7-19 | The state of a fresh ledger satisfies the ledger invariant: a linked chain, nothing accepted, and a total equal to the seed. |
| `Chain.GenesisLinked` | app.py:13-19 | A chain made of just the genesis block is well formed. |
| `Ledger.Blockchain.EnsureUserBalance` | app.py:21-23 | The new table is the old one with `user` given `defaultBalance` only when it was absent. Only the balance table changes. Called with the default of 100 on a valid ledger, the ledger stays valid. |
| `Ledger.ProvisionOnePreserves` | app.py:21-23 | Provisioning one account with the opening balance of 100 keeps the ledger invariant. |
| `Accounts.Provision` | app.py:21-23 | Afterwards the user has an entry. All existing entries keep their values, the only key added is the user, and an absent user gets the default. |
| `Accounts.ProvisionIdempotent` | app.py:21-23 | Provisioning the same user twice gives the same table as provisioning once. |
| `Accounts.ProvisionSize` | app.py:21-23 | Provisioning adds one account exactly when the user was absent. |
| `Accounts.ProvisionTotal` | app.py:21-23 | Provisioning raises the total by the default when the user was absent, and by nothing otherwise. |
| `Accounts.ProvisionNonNegative` | app.py:21-23 | Provisioning with a non-negative default keeps every balance non-negative. |
| `Accounts.TotalOfSeed` | app.py:10 | The seeded table sums to 1,000,000. |
| `Transfers.ProvisionParties` | app.py:26-27 | After provisioning sender and receiver, the keys are the old keys plus both parties. Old balances are kept, and each new party holds 100. |
| `Transfers.Validate` | app.py:28-31 | A transfer is admitted iff the amount is positive and the sender is `"Bank Network"` or holds at least the amount. A non-positive amount is reported as such, before the balance check. |
| `Transfers.Settle` | app.py:32-34 | The accounts stay the same. The sender loses `amount` unless it is `"Bank Network"`, the receiver gains `amount`, and every other balance is unchanged. A self-transfer of an ordinary account nets to zero. |
| `Transfers.SettleTotal` | app.py:32-34 | An ordinary transfer conserves the total. A transfer from `"Bank Network"` raises it by exactly `amount`. |
| `Transfers.SettleNonNegative` | app.py:30-34 | An admitted transfer keeps every balance non-negative. |
| `Transfers.SettleKeepsBank` | app.py:32-34 | An admitted transfer never lowers the balance of `"Bank Network"`. |
| `Transfers.MintedAppend` | app.py:32-35 | The coins created by privileged transfers add up over a history split in two. |
| `Ledger.Blockchain.AddTransaction` | app.py:25-40 | Both parties are always provisioned, and `ok` holds iff `Validate` admits the transfer. A refusal reports "amount must be positive" or "insufficient balance" and leaves pool and log unchanged. Acceptance settles the transfer, appends exactly `(sender, receiver, amount)` to the end of the pool, and keeps the invariant. |
| `Ledger.ProvisionPreserves` | app.py:26-31 | Provisioning the two parties keeps the ledger invariant, so a refused submission keeps it too. |
| `Ledger.SettlePreserves` | app.py:32-40 | Settling an admitted transfer and appending it to the pool and the log keeps the ledger invariant. |
| `Ledger.SubmitPreserves` | app.py:25-40 | A submission keeps the ledger invariant, whatever its outcome. |
| `Chain.NextBlock` | app.py:44-49 | The mined block has index equal to the chain length, the given timestamp and the pending pool as its transactions. On a well-formed chain its link is the index of the last block. |
| `Chain.NextBlockLinked` | app.py:44-50 | Appending the next block keeps the chain well formed. The new block has index equal to the old length, links to the last block's index, and carries the pending pool as its transactions. |
| `Chain.SealedAppend` | app.py:47-50 | Appending a block appends exactly its transactions, in order, to the sealed history. |
| `Ledger.Reward` | app.py:43-53 | The miner is provisioned and ends with its old balance (or 100) plus 10. No other account changes. |
| `Ledger.RewardTotal` | app.py:43-53 | Mining raises the total by 10, plus 100 when the miner is new. |
| `Ledger.MinePreserves` | app.py:43-53 | Sealing the pool into the next block, emptying the pool and rewarding the miner keeps the ledger invariant. |
| `Ledger.Blockchain.MineBlock` | app.py:42-54 | The chain grows by one block. The block has index equal to the old length, link equal to the old length minus 1, and the old pool as its transactions. The pool is emptied. The miner's balance rises by exactly 10 after provisioning, even for an empty pool. Every other balance is unchanged, and the invariant is kept. |

## Left out

- Ledger.Blockchain.CreateGenesisBlock: it is only for construction. As in the source, calling it again on a live ledger appends a second block with index 0, which breaks the well-formedness of the chain. So its contract does not promise `Valid()`.
- Ledger.Blockchain.EnsureUserBalance: it keeps `Valid()` only when called with the standard opening balance of 100. A different default makes the total-supply equation fail, and a negative one also breaks non-negativity.
- The Streamlit page (app.py:56-146) is presentation and is not modelled. This covers the page setup, styling, KPI cards, input widgets, buttons and the rendering of balances, pending transfers and blocks. So the read-only figures it computes (account count, total coins, pending count, last block index) have no operations here. The ghost `Accounts.Total` only states what "total coins" means.
- The mining progress bar and its `time.sleep` loop (app.py:113-115) are left out. They are a timed pause that does not touch the ledger.
- `datetime.now()` (app.py:16, 46) is a clock read. The timestamp is an uninterpreted `Timestamp` parameter of the constructor and of `MineBlock`.
- Amounts are integers. The UI's floating-point input (app.py:102) and the two-decimal formatting are not modelled.
- Keeping the instance in the session state (app.py:76-78) is framework session handling and is left out.
- Messages are modelled by their meaning (`Ledger.Message`). The exact f-string text, including the arrow character, is not modelled.
- The sender-equals-receiver and empty-name checks are not modelled. The core does not make them.
- `dict` insertion order (the order in which the UI lists balances) is not modelled. Balances are a Dafny `map`.
