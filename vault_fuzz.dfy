/**
 The shadow ledger of the vault's stateful fuzz test.

 `VaultFuzz` keeps the balances the test expects the token and the vault to
 report: each account's accumulated deposit, each account's token balance
 (the vault's own custodial balance included) and the current deposit bounds.
 Each flow changes them by a fixed rule. The random choices a flow makes, the
 result of the transaction it sends and the views it queries are arguments.
 */
module VaultFuzzTest {
  import opened Ledger
  import opened Events

  const MaxMinDeposit: int := 1_000_000_000_000_000_000         // 10^18
  const InitialMaxDeposit: int := 100_000_000_000_000_000_000   // 10^20
  const MaxLimit: int := 1_000_000_000_000_000_000_000          // 10^21
  const MaxTransfer: int := 100_000_000_000_000_000_000         // 10^20

  const NoEligibleUsers := "No eligible users"
  const VaultInsufficientBalance := "vault Insufficient balance"
  const NoTokensToWithdraw := "No tokens to withdraw"

  /** A transaction sent to a contract: it reverted, or it was mined and emitted `events`. */
  datatype Tx = Reverted | Mined(events: seq<Event>)

  /**
   How a flow ended: it ran, it declined to run (the reason it returns), or an
   assertion failed or a transaction reverted, which aborts the sequence.
   */
  datatype Outcome = Done | Skip(reason: string) | Fail(reason: string)

  /** Some account has a strictly positive shadow deposit, so a withdrawal can be picked. */
  predicate HasEligible(deposits: Table)
  {
    exists a :: a in deposits && deposits[a] > 0
  }

  class VaultFuzz {
    /** The accounts of the chain (`chain.accounts`); contracts are not among them. */
    const accounts: set<Account>
    const vaultOwner: Account
    const token: Account
    const vault: Account

    var minDepositAmount: int
    var maxDepositAmount: int
    var depositAmounts: Table
    var tokenBalances: Table

    /** What every flow keeps true of the shadow state. */
    ghost predicate Valid()
      reads this
    {
      && vaultOwner in accounts
      && vault !in accounts && token !in accounts && vault != token
      && 0 <= minDepositAmount <= MaxMinDeposit
      && minDepositAmount <= maxDepositAmount <= MaxLimit
      && depositAmounts.Keys <= accounts
      && tokenBalances.Keys <= accounts + {vault, token}
      && forall a :: Get(depositAmounts, a) >= 0
    }

    /** The vault's shadow token balance equals the sum of all shadow deposits. */
    ghost predicate Custodied()
      reads this
    {
      Get(tokenBalances, vault) == Total(depositAmounts)
    }

    /**
     Setup of a sequence: empty ledgers and the bounds the vault is deployed
     with. The owner is one of the chain's accounts; the token and the vault
     are freshly deployed contracts.
     */
    constructor PreSequence(chainAccounts: set<Account>, owner: Account, tokenAddress: Account,
                            vaultAddress: Account, minAmount: int, maxAmount: int)
      requires owner in chainAccounts
      requires vaultAddress !in chainAccounts && tokenAddress !in chainAccounts
      requires vaultAddress != tokenAddress
      requires 0 <= minAmount <= MaxMinDeposit
      requires minAmount <= maxAmount <= InitialMaxDeposit
      ensures Valid() && Custodied()
      ensures accounts == chainAccounts && vaultOwner == owner
      ensures token == tokenAddress && vault == vaultAddress
      ensures depositAmounts == map[] && tokenBalances == map[]
      ensures forall a :: Get(depositAmounts, a) == 0 && Get(tokenBalances, a) == 0
      ensures minDepositAmount == minAmount && maxDepositAmount == maxAmount
    {
      accounts := chainAccounts;
      vaultOwner := owner;
      tokenBalances := map[];
      depositAmounts := map[];
      token := tokenAddress;
      minDepositAmount := minAmount;
      maxDepositAmount := maxAmount;
      vault := vaultAddress;
    }

    /**
     Mints `amount` to `user`, who deposits it. The mint is recorded before the
     deposit is sent, so it stays recorded when the deposit reverts or its event
     check fails.
     */
    method FlowDeposit(user: Account, amount: nat, tx: Tx) returns (o: Outcome)
      requires Valid()
      requires user in accounts
      requires minDepositAmount <= amount <= maxDepositAmount
      modifies this
      ensures Valid()
      ensures !o.Skip?
      ensures o.Done? <==> tx.Mined? && ExpectOne(tx.events, Deposited(user, amount))
      ensures minDepositAmount == old(minDepositAmount) && maxDepositAmount == old(maxDepositAmount)
      ensures depositAmounts.Keys == old(depositAmounts.Keys) + (if o.Done? then {user} else {})
      ensures Get(depositAmounts, user) == old(Get(depositAmounts, user)) + (if o.Done? then amount else 0)
      ensures SameExcept(depositAmounts, old(depositAmounts), {user})
      ensures tokenBalances.Keys == old(tokenBalances.Keys) + (if o.Done? then {user, vault} else {user})
      ensures Get(tokenBalances, user) == old(Get(tokenBalances, user)) + (if o.Done? then 0 else amount)
      ensures Get(tokenBalances, vault) == old(Get(tokenBalances, vault)) + (if o.Done? then amount else 0)
      ensures SameExcept(tokenBalances, old(tokenBalances), {user, vault})
      ensures Total(tokenBalances) == old(Total(tokenBalances)) + amount
      ensures Total(depositAmounts) == old(Total(depositAmounts)) + (if o.Done? then amount else 0)
      ensures old(Custodied()) ==> Custodied()
    {
      tokenBalances := Add(tokenBalances, user, amount);
      if tx.Reverted? {
        return Fail("deposit reverted");
      }
      var seen := CheckEvent(tx.events, Deposited(user, amount));
      if !seen {
        return Fail("unexpected Deposited events");
      }
      depositAmounts := Add(depositAmounts, user, amount);
      tokenBalances := Move(tokenBalances, user, vault, amount);
      return Done;
    }

    /**
     Withdraws `amount` for `pick`. When some account has a positive deposit,
     `pick` is one of them and `amount` lies between 0 and its deposit;
     otherwise neither is used. `reportedVaultBalance` is the vault's answer to
     `balanceOf(vault)`: the deposit the vault records for its own address,
     not the tokens it holds.
     */
    method FlowWithdraw(pick: Account, amount: nat, reportedVaultBalance: nat, tx: Tx) returns (o: Outcome)
      requires Valid()
      requires HasEligible(depositAmounts) ==>
                 pick in depositAmounts && depositAmounts[pick] > 0 && amount <= depositAmounts[pick]
      modifies this
      ensures Valid()
      ensures o == Skip(NoEligibleUsers) <==> !HasEligible(old(depositAmounts))
      ensures o == Skip(VaultInsufficientBalance) <==>
                HasEligible(old(depositAmounts)) && reportedVaultBalance < amount
      ensures o.Skip? ==> o.reason == NoEligibleUsers || o.reason == VaultInsufficientBalance
      ensures o.Done? <==>
                && HasEligible(old(depositAmounts))
                && amount <= reportedVaultBalance
                && tx.Mined? && ExpectOne(tx.events, Withdrawn(pick, amount))
      ensures minDepositAmount == old(minDepositAmount) && maxDepositAmount == old(maxDepositAmount)
      ensures !o.Done? ==> depositAmounts == old(depositAmounts) && tokenBalances == old(tokenBalances)
      ensures depositAmounts.Keys == old(depositAmounts.Keys)
      ensures o.Done? ==> Get(depositAmounts, pick) == old(Get(depositAmounts, pick)) - amount >= 0
      ensures SameExcept(depositAmounts, old(depositAmounts), {pick})
      ensures o.Done? ==> tokenBalances.Keys == old(tokenBalances.Keys) + {vault, pick}
      ensures o.Done? ==> Get(tokenBalances, vault) == old(Get(tokenBalances, vault)) - amount
      ensures o.Done? ==> Get(tokenBalances, pick) == old(Get(tokenBalances, pick)) + amount
      ensures SameExcept(tokenBalances, old(tokenBalances), {vault, pick})
      ensures Total(tokenBalances) == old(Total(tokenBalances))
      ensures Total(depositAmounts) == old(Total(depositAmounts)) - (if o.Done? then amount else 0)
      ensures old(Custodied()) ==> Custodied()
    {
      if !HasEligible(depositAmounts) {
        return Skip(NoEligibleUsers);
      }
      if reportedVaultBalance < amount {
        return Skip(VaultInsufficientBalance);
      }
      if tx.Reverted? {
        return Fail("withdraw reverted");
      }
      var seen := CheckEvent(tx.events, Withdrawn(pick, amount));
      if !seen {
        return Fail("unexpected Withdrawn events");
      }
      depositAmounts := Add(depositAmounts, pick, -(amount as int));
      tokenBalances := Move(tokenBalances, vault, pick, amount);
      return Done;
    }

    /**
     Sweeps the vault's whole shadow token balance to the owner. Reading that
     balance inserts the vault's key even when the flow then skips.
     */
    method FlowEmergencyWithdraw(tx: Tx) returns (o: Outcome)
      requires Valid()
      modifies this
      ensures Valid()
      ensures o.Skip? <==> old(Get(tokenBalances, vault)) == 0
      ensures o.Skip? ==> o.reason == NoTokensToWithdraw
      ensures o.Fail? <==> old(Get(tokenBalances, vault)) != 0 && tx.Reverted?
      ensures minDepositAmount == old(minDepositAmount) && maxDepositAmount == old(maxDepositAmount)
      ensures depositAmounts == old(depositAmounts)
      ensures tokenBalances.Keys == old(tokenBalances.Keys) + (if o.Done? then {vault, vaultOwner} else {vault})
      ensures !o.Done? ==> forall a :: Get(tokenBalances, a) == old(Get(tokenBalances, a))
      ensures o.Done? ==> Get(tokenBalances, vault) == 0
      ensures o.Done? ==>
                Get(tokenBalances, vaultOwner) == old(Get(tokenBalances, vaultOwner)) + old(Get(tokenBalances, vault))
      ensures SameExcept(tokenBalances, old(tokenBalances), {vault, vaultOwner})
      ensures Total(tokenBalances) == old(Total(tokenBalances))
    {
      var amount := Get(tokenBalances, vault);
      tokenBalances := Touch(tokenBalances, vault);
      if amount == 0 {
        return Skip(NoTokensToWithdraw);
      }
      if tx.Reverted? {
        return Fail("emergencyWithdraw reverted");
      }
      tokenBalances := Move(tokenBalances, vault, vaultOwner, amount);
      return Done;
    }

    /** Replaces the deposit bounds by `minAmount` and `maxAmount`. */
    method FlowSetDepositLimits(minAmount: nat, maxAmount: nat, tx: Tx) returns (o: Outcome)
      requires Valid()
      requires minAmount <= MaxMinDeposit
      requires minAmount <= maxAmount <= MaxLimit
      modifies this
      ensures Valid()
      ensures !o.Skip?
      ensures o.Done? <==> tx.Mined? && ExpectOne(tx.events, DepositLimitsUpdated(minAmount, maxAmount))
      ensures o.Done? ==> minDepositAmount == minAmount && maxDepositAmount == maxAmount
      ensures !o.Done? ==> minDepositAmount == old(minDepositAmount) && maxDepositAmount == old(maxDepositAmount)
      ensures depositAmounts == old(depositAmounts) && tokenBalances == old(tokenBalances)
      ensures old(Custodied()) ==> Custodied()
    {
      if tx.Reverted? {
        return Fail("setDepositLimits reverted");
      }
      if !ExpectLimitsUpdated(tx.events, minAmount, maxAmount) {
        return Fail("unexpected DepositLimitsUpdated events");
      }
      minDepositAmount := minAmount;
      maxDepositAmount := maxAmount;
      return Done;
    }

    /**
     Mints `amount` to `source`, which transfers it to `target`: any chain
     account, the vault or the token contract itself, `source` included.
     */
    method FlowTransferTokenToRandom(source: Account, amount: nat, target: Account, tx: Tx) returns (o: Outcome)
      requires Valid()
      requires source in accounts
      requires amount <= MaxTransfer
      requires target in accounts || target == vault || target == token
      modifies this
      ensures Valid()
      ensures !o.Skip?
      ensures o.Fail? <==> tx.Reverted?
      ensures minDepositAmount == old(minDepositAmount) && maxDepositAmount == old(maxDepositAmount)
      ensures depositAmounts == old(depositAmounts)
      ensures tokenBalances.Keys == old(tokenBalances.Keys) + {source} + (if o.Done? then {target} else {})
      ensures Total(tokenBalances) == old(Total(tokenBalances)) + amount
      ensures o.Done? && target != source ==>
                && Get(tokenBalances, target) == old(Get(tokenBalances, target)) + amount
                && Get(tokenBalances, source) == old(Get(tokenBalances, source))
      ensures o.Done? && target == source ==> Get(tokenBalances, source) == old(Get(tokenBalances, source)) + amount
      ensures o.Fail? ==> Get(tokenBalances, source) == old(Get(tokenBalances, source)) + amount
      ensures SameExcept(tokenBalances, old(tokenBalances), {source, target})
    {
      tokenBalances := Add(tokenBalances, source, amount);
      if tx.Reverted? {
        return Fail("transfer reverted");
      }
      tokenBalances := Move(tokenBalances, source, target, amount);
      return Done;
    }

    /** Passes when the vault reports, for every account with a shadow deposit entry, that deposit. */
    method InvariantDepositAmounts(vaultBalanceOf: Account -> nat) returns (ok: bool)
      ensures ok <==> forall a :: a in depositAmounts ==> vaultBalanceOf(a) == depositAmounts[a]
    {
      ok := CheckAll(depositAmounts, vaultBalanceOf);
    }

    /** Passes when the token reports, for every account with a shadow token entry, that balance. */
    method InvariantTokenBalances(tokenBalanceOf: Account -> nat) returns (ok: bool)
      ensures ok <==> forall a :: a in tokenBalances ==> tokenBalanceOf(a) == tokenBalances[a]
    {
      ok := CheckAll(tokenBalances, tokenBalanceOf);
    }
  }

  /**
   A deposit, an emergency sweep and a withdrawal of the whole deposit, each of
   which succeeds, under two conditions the contracts would have to meet: the
   vault reports a deposit of 5 for its own address, which lets the withdraw
   guard pass, and the withdrawal is mined with its Withdrawn event although
   the sweep left the vault holding no tokens. The shadow vault balance then
   ends at -5, so the next token-balance invariant check fails whatever the
   token reports.
   */
  method SweepThenWithdraw(tokenBalanceOf: Account -> nat) returns (f: VaultFuzz, ok: bool)
    ensures f.Valid()
    ensures Get(f.tokenBalances, f.vault) == -5
    ensures Get(f.depositAmounts, Account(1)) == 0
    ensures !ok
  {
    var user, owner, vault := Account(1), Account(0), Account(100);
    f := new VaultFuzz.PreSequence({owner, user}, owner, Account(101), vault, 0, 10);
    var deposited := [Other("Transfer"), Deposited(user, 5)];
    assert OnlyAt(deposited, Deposited(user, 5), 1);
    OnlyAtExpectOne(deposited, Deposited(user, 5), 1);
    var o := f.FlowDeposit(user, 5, Mined(deposited));
    assert o.Done? && Get(f.tokenBalances, vault) == 5 && Get(f.depositAmounts, user) == 5;
    o := f.FlowEmergencyWithdraw(Mined([]));
    assert o.Done? && Get(f.tokenBalances, vault) == 0 && Get(f.depositAmounts, user) == 5;
    var withdrawn := [Withdrawn(user, 5)];
    assert OnlyAt(withdrawn, Withdrawn(user, 5), 0);
    OnlyAtExpectOne(withdrawn, Withdrawn(user, 5), 0);
    assert HasEligible(f.depositAmounts) by { assert user in f.depositAmounts; }
    o := f.FlowWithdraw(user, 5, 5, Mined(withdrawn));
    assert o.Done? && vault in f.tokenBalances;
    ok := f.InvariantTokenBalances(tokenBalanceOf);
  }
}
