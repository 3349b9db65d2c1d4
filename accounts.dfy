/**
 The account registry of the ledger: a table from account name to balance,
 the privileged "Bank Network" account, lazy provisioning of unseen accounts
 and the total of all balances (the coins in circulation).
 */
module Accounts {

  /** The privileged account: it is exempt from the balance check when it sends. */
  const BankNetwork: string := "Bank Network"
  /** What the privileged account is seeded with when the ledger is created. */
  const BankSeed: int := 1_000_000
  /** Opening balance of an account on its first reference. */
  const DefaultBalance: int := 100

  type Balances = map<string, int>

  /** Some account of a non-empty table. */
  ghost function Pick(b: Balances): (k: string)
    requires b.Keys != {}
    ensures k in b
  {
    var k :| k in b; k
  }

  /** Sum of every balance in the table. */
  ghost function Total(b: Balances): (t: int)
    decreases b.Keys
  {
    if b.Keys == {} then 0
    else
      var k := Pick(b);
      b[k] + Total(b - {k})
  }

  /** Whichever key Total picks first, the sum splits off any one key. */
  lemma {:induction false} TotalRemove(b: Balances, k: string)
    requires k in b
    ensures Total(b) == b[k] + Total(b - {k})
    decreases b.Keys
  {
    var j := Pick(b);
    if j != k {
      var bj, bk := b - {j}, b - {k};
      assert k in bj && j in bk;
      TotalRemove(bj, k);
      TotalRemove(bk, j);
      assert bj - {k} == bk - {j};
    }
  }

  /** Setting one key changes the total by the difference at that key. */
  lemma TotalSet(b: Balances, k: string, v: int)
    ensures Total(b[k := v]) == Total(b) - (if k in b then b[k] else 0) + v
  {
    var u := b[k := v];
    TotalRemove(u, k);
    assert u - {k} == b - {k};
    if k in b {
      TotalRemove(b, k);
    } else {
      assert b - {k} == b;
    }
  }

  /** The table of a fresh ledger sums to the seed of the privileged account. */
  lemma TotalOfSeed()
    ensures Total(map[BankNetwork := BankSeed]) == BankSeed
  {
    TotalSet(map[], BankNetwork, BankSeed);
  }

  /** Every account holds a non-negative balance. */
  predicate NonNegative(b: Balances)
  {
    forall k :: k in b ==> b[k] >= 0
  }

  /**
   Registers `user` with `defaultBalance` when the table has no entry for it;
   an existing entry is left as it is.
   */
  function Provision(b: Balances, user: string, defaultBalance: int): (r: Balances)
    ensures r.Keys == b.Keys + {user}
    ensures user !in b ==> r[user] == defaultBalance
    ensures forall k :: k in b ==> r[k] == b[k]
  {
    if user in b then b else b[user := defaultBalance]
  }

  /** Provisioning a new account adds one entry to the table. */
  lemma ProvisionSize(b: Balances, user: string, defaultBalance: int)
    ensures |Provision(b, user, defaultBalance)| == |b| + (if user in b then 0 else 1)
  {
  }


  /** Provisioning twice is provisioning once. */
  lemma ProvisionIdempotent(b: Balances, user: string, defaultBalance: int)
    ensures Provision(Provision(b, user, defaultBalance), user, defaultBalance)
         == Provision(b, user, defaultBalance)
  {
  }

  /** Provisioning a new account adds its opening balance to the total. */
  lemma ProvisionTotal(b: Balances, user: string, defaultBalance: int)
    ensures Total(Provision(b, user, defaultBalance))
         == Total(b) + (if user in b then 0 else defaultBalance)
  {
    if user !in b {
      TotalSet(b, user, defaultBalance);
    }
  }

  /** Provisioning keeps every existing balance, so it keeps them non-negative. */
  lemma ProvisionNonNegative(b: Balances, user: string, defaultBalance: int)
    requires NonNegative(b) && defaultBalance >= 0
    ensures NonNegative(Provision(b, user, defaultBalance))
  {
  }
}
