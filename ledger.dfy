/**
 The in-memory ledger: a balance table, a pool of accepted but unsealed
 transfers and the chain of sealed blocks, updated in place by submission
 and mining.
 */
module Ledger {
  import opened Accounts
  import opened Transfers
  import opened Chain

  /** What an operation reports back to its caller, by meaning. */
  datatype Message =
    | AmountMustBePositive
    | InsufficientBalance(account: string)
    | Transferred(sender: string, receiver: string, amount: int)
    | BlockMined(miner: string, reward: int)

  /** The chain is well formed and holds, with the pool, every accepted transfer in order. */
  ghost predicate ChainIntact(chain: seq<Block>, pending: seq<Transfer>, accepted: seq<Transfer>)
  {
    Linked(chain) && Sealed(chain) + pending == accepted
  }

  /** Every accepted transfer has a positive amount and provisioned parties. */
  ghost predicate TransfersRecorded(accepted: seq<Transfer>, balances: Balances)
  {
    forall i :: 0 <= i < |accepted| ==>
      && accepted[i].amount > 0
      && accepted[i].sender in balances
      && accepted[i].receiver in balances
  }

  /**
   The privileged account exists and never drops below its seed; no
   ordinary account is negative.
   */
  ghost predicate BalancesSound(balances: Balances)
  {
    BankNetwork in balances && balances[BankNetwork] >= BankSeed && NonNegative(balances)
  }

  /**
   The coins in circulation are exactly the seed, plus the opening balance of
   every other account, plus the reward of every mined block, plus what the
   privileged account has sent.
   */
  ghost predicate SupplyAccounted(chain: seq<Block>, balances: Balances, accepted: seq<Transfer>)
  {
    Total(balances)
    == BankSeed + DefaultBalance * (|balances| - 1) + MiningReward * (|chain| - 1) + Minted(accepted)
  }

  /** The ledger invariant. */
  ghost predicate Invariant(chain: seq<Block>, pending: seq<Transfer>, balances: Balances, accepted: seq<Transfer>)
  {
    && ChainIntact(chain, pending, accepted)
    && TransfersRecorded(accepted, balances)
    && BalancesSound(balances)
    && SupplyAccounted(chain, balances, accepted)
  }

  /** A fresh ledger satisfies the invariant. */
  lemma FreshInvariant(timestamp: Timestamp)
    ensures Invariant([GenesisBlock(timestamp)], [], map[BankNetwork := BankSeed], [])
  {
    var chain := [GenesisBlock(timestamp)];
    GenesisLinked(timestamp);
    SealedAppend([], GenesisBlock(timestamp));
    assert [] + [GenesisBlock(timestamp)] == chain;
    TotalOfSeed();
  }

  /** Provisioning one account with the standard opening balance keeps the invariant. */
  lemma ProvisionOnePreserves(chain: seq<Block>, pending: seq<Transfer>, balances: Balances,
                              accepted: seq<Transfer>, user: string)
    requires Invariant(chain, pending, balances, accepted)
    ensures Invariant(chain, pending, Provision(balances, user, DefaultBalance), accepted)
  {
    ProvisionTotal(balances, user, DefaultBalance);
  }

  /** Provisioning the parties keeps the invariant, so a refused submission keeps it. */
  lemma ProvisionPreserves(chain: seq<Block>, pending: seq<Transfer>, balances: Balances,
                           accepted: seq<Transfer>, sender: string, receiver: string)
    requires Invariant(chain, pending, balances, accepted)
    ensures Invariant(chain, pending, ProvisionParties(balances, sender, receiver), accepted)
  {
    var once := Provision(balances, sender, DefaultBalance);
    ProvisionOnePreserves(chain, pending, balances, accepted, sender);
    ProvisionOnePreserves(chain, pending, once, accepted, receiver);
  }

  /** An admitted transfer, appended to the pool, keeps the invariant. */
  lemma SettlePreserves(chain: seq<Block>, pending: seq<Transfer>, balances: Balances,
                        accepted: seq<Transfer>, sender: string, receiver: string, amount: int)
    requires Invariant(chain, pending, balances, accepted)
    requires sender in balances && receiver in balances
    requires Validate(balances, sender, amount) == Admit
    ensures var t := Transfer(sender, receiver, amount);
      Invariant(chain, pending + [t], Settle(balances, sender, receiver, amount), accepted + [t])
  {
    var t := Transfer(sender, receiver, amount);
    var settled := Settle(balances, sender, receiver, amount);
    assert ChainIntact(chain, pending + [t], accepted + [t]) by {
      assert Sealed(chain) + (pending + [t]) == (Sealed(chain) + pending) + [t];
    }
    assert TransfersRecorded(accepted + [t], settled) by {
      assert forall i :: 0 <= i < |accepted| ==> (accepted + [t])[i] == accepted[i];
    }
    SettleNonNegative(balances, sender, receiver, amount);
    SettleKeepsBank(balances, sender, receiver, amount);
    assert SupplyAccounted(chain, settled, accepted + [t]) by {
      SettleTotal(balances, sender, receiver, amount);
      MintedAppend(accepted, [t]);
      assert [t][..0] == [];
    }
  }

  /**
   A submission keeps the invariant whatever its outcome: a refusal leaves
   only the provisioned parties behind, an acceptance also settles the
   transfer and appends it to the pool.
   */
  lemma SubmitPreserves(chain: seq<Block>, pending: seq<Transfer>, balances: Balances,
                        accepted: seq<Transfer>, sender: string, receiver: string, amount: int)
    requires Invariant(chain, pending, balances, accepted)
    ensures var provisioned := ProvisionParties(balances, sender, receiver);
      var t := Transfer(sender, receiver, amount);
      && Invariant(chain, pending, provisioned, accepted)
      && (Validate(provisioned, sender, amount) == Admit ==>
            Invariant(chain, pending + [t], Settle(provisioned, sender, receiver, amount), accepted + [t]))
  {
    var provisioned := ProvisionParties(balances, sender, receiver);
    ProvisionPreserves(chain, pending, balances, accepted, sender, receiver);
    if Validate(provisioned, sender, amount) == Admit {
      SettlePreserves(chain, pending, provisioned, accepted, sender, receiver, amount);
    }
  }

  /**
   The balance table after mining: the miner is provisioned, then credited
   with the reward; no other account changes.
   */
  function Reward(balances: Balances, miner: string): (r: Balances)
    ensures r.Keys == balances.Keys + {miner}
    ensures r[miner] == (if miner in balances then balances[miner] else DefaultBalance) + MiningReward
    ensures forall k :: k in balances && k != miner ==> r[k] == balances[k]
  {
    var provisioned := Provision(balances, miner, DefaultBalance);
    provisioned[miner := provisioned[miner] + MiningReward]
  }

  /** Mining adds the reward, and the opening balance of a new miner, to the total. */
  lemma RewardTotal(balances: Balances, miner: string)
    ensures Total(Reward(balances, miner))
         == Total(balances) + (if miner in balances then 0 else DefaultBalance) + MiningReward
  {
    var provisioned := Provision(balances, miner, DefaultBalance);
    ProvisionTotal(balances, miner, DefaultBalance);
    TotalSet(provisioned, miner, provisioned[miner] + MiningReward);
  }

  /** Sealing the pool and crediting the miner keeps the invariant. */
  lemma MinePreserves(chain: seq<Block>, pending: seq<Transfer>, balances: Balances,
                      accepted: seq<Transfer>, miner: string, timestamp: Timestamp)
    requires Invariant(chain, pending, balances, accepted)
    ensures Invariant(chain + [NextBlock(chain, pending, timestamp)], [],
                      Reward(balances, miner), accepted)
  {
    var block := NextBlock(chain, pending, timestamp);
    NextBlockLinked(chain, pending, timestamp);
    assert ChainIntact(chain + [block], [], accepted) by {
      SealedAppend(chain, block);
      assert Sealed(chain + [block]) + [] == Sealed(chain) + pending;
    }
    assert SupplyAccounted(chain + [block], Reward(balances, miner), accepted) by {
      RewardTotal(balances, miner);
    }
  }

  class Blockchain {
    var chain: seq<Block>
    var pending: seq<Transfer>
    var balances: Balances
    /** Every transfer ever accepted, in order of acceptance. */
    ghost var accepted: seq<Transfer>

    ghost predicate Valid()
      reads this
    {
      Invariant(chain, pending, balances, accepted)
    }

    /** A fresh ledger: the seeded privileged account and a genesis block. */
    constructor (timestamp: Timestamp)
      ensures Valid()
      ensures chain == [GenesisBlock(timestamp)]
      ensures |chain| == 1 && chain[0].index == 0 && chain[0].transactions == []
      ensures chain[0].previousHash == 0
      ensures pending == [] && accepted == []
      ensures balances == map[BankNetwork := BankSeed]
    {
      chain := [];
      pending := [];
      balances := map[BankNetwork := BankSeed];
      accepted := [];
      new;
      CreateGenesisBlock(timestamp);
      FreshInvariant(timestamp);
    }

    /** Appends the genesis block to the chain. */
    method CreateGenesisBlock(timestamp: Timestamp)
      modifies this`chain
      ensures chain == old(chain) + [GenesisBlock(timestamp)]
    {
      chain := chain + [GenesisBlock(timestamp)];
    }

    /**
     Registers `user` with `defaultBalance` if it has no balance yet; an
     existing balance is never changed. Called with the standard opening
     balance, it keeps the ledger invariant.
     */
    method EnsureUserBalance(user: string, defaultBalance: int := DefaultBalance)
      modifies this`balances
      ensures balances == Provision(old(balances), user, defaultBalance)
      ensures old(Valid()) && defaultBalance == DefaultBalance ==> Valid()
    {
      if Valid() && defaultBalance == DefaultBalance {
        ProvisionOnePreserves(chain, pending, balances, accepted, user);
      }
      if user !in balances {
        balances := balances[user := defaultBalance];
      }
    }

    /**
     Submits a transfer. Sender and receiver are provisioned first, whatever
     the outcome. A non-positive amount is refused, then a sender other than
     the privileged account holding less than `amount`; a refusal changes
     nothing beyond that provisioning. An accepted transfer debits the sender
     (unless privileged), credits the receiver and is appended to the pool.
     */
    method AddTransaction(sender: string, receiver: string, amount: int) returns (ok: bool, msg: Message)
      requires Valid()
      modifies this`balances, this`pending, this`accepted
      ensures Valid()
      ensures var provisioned := ProvisionParties(old(balances), sender, receiver);
        && (ok <==> Validate(provisioned, sender, amount) == Admit)
        && (!ok ==> balances == provisioned && pending == old(pending) && accepted == old(accepted))
        && (ok ==> balances == Settle(provisioned, sender, receiver, amount))
      ensures amount <= 0 ==> !ok && msg == AmountMustBePositive
      ensures amount > 0 && !ok ==> msg == InsufficientBalance(sender)
      ensures ok ==> pending == old(pending) + [Transfer(sender, receiver, amount)]
      ensures ok ==> accepted == old(accepted) + [Transfer(sender, receiver, amount)]
      ensures ok ==> msg == Transferred(sender, receiver, amount)
    {
      EnsureUserBalance(sender);
      EnsureUserBalance(receiver);
      assert balances == ProvisionParties(old(balances), sender, receiver);
      if amount <= 0 {
        return false, AmountMustBePositive;
      }
      if sender != BankNetwork && balances[sender] < amount {
        return false, InsufficientBalance(sender);
      }
      SettlePreserves(chain, pending, balances, accepted, sender, receiver, amount);
      balances := Settle(balances, sender, receiver, amount);
      var t := Transfer(sender, receiver, amount);
      pending := pending + [t];
      accepted := accepted + [t];
      return true, Transferred(sender, receiver, amount);
    }

    /**
     Seals the pending pool into a new block on top of the chain, empties the
     pool and credits the miner (provisioned first) with the fixed reward,
     even when the pool was empty.
     */
    method MineBlock(minerName: string, timestamp: Timestamp) returns (block: Block, msg: Message)
      requires Valid()
      modifies this`balances, this`chain, this`pending
      ensures Valid()
      ensures block == NextBlock(old(chain), old(pending), timestamp)
      ensures block.index == |old(chain)| && block.previousHash == |old(chain)| - 1
      ensures block.transactions == old(pending)
      ensures chain == old(chain) + [block] && pending == []
      ensures balances == Reward(old(balances), minerName)
      ensures balances[minerName]
           == (if minerName in old(balances) then old(balances[minerName]) else DefaultBalance) + MiningReward
      ensures forall k :: k in old(balances) && k != minerName ==> balances[k] == old(balances[k])
      ensures msg == BlockMined(minerName, MiningReward)
    {
      MinePreserves(chain, pending, balances, accepted, minerName, timestamp);
      EnsureUserBalance(minerName);
      block := NextBlock(chain, pending, timestamp);
      chain := chain + [block];
      pending := [];
      var rewardAmount := MiningReward;
      balances := balances[minerName := balances[minerName] + rewardAmount];
      msg := BlockMined(minerName, rewardAmount);
    }
  }
}
