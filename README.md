# Shadow ledger of the vault fuzz test

The repository tests a single-token vault contract. Its stateful fuzz test,
`VaultFuzz`, keeps a shadow ledger that predicts what the token and the vault
should report. The ledger holds:

- `deposit_amounts`: account to accumulated deposit;
- `token_balances`: account to token balance, with the vault's own custodial balance among them;
- the deposit bounds `min_deposit_amount` and `max_deposit_amount`.

The fuzz engine runs five flows in random order. Each one changes the ledger by
a fixed rule, or declines to run by returning a skip reason. After every flow,
invariant checks compare the ledger with the contracts' views.

This project models that ledger in Dafny and proves what each flow does to it.

- `ledger.dfy` (module `Ledger`): tables keyed by account with `defaultdict(int)`
  semantics. A missing key reads as 0 (`Get`). A subscript read inserts the key
  (`Touch`), and so does `+=` (`Add`). A transfer between two entries is `Move`,
  and `Total` is the sum of a table. `CheckAll` is the loop the invariant
  checks run over the keys.
- `events.dfy` (module `Events`): a transaction's decoded events as a tagged
  `Event` datatype. `OfKind` keeps the events of one type. `CollectEvents` is
  the filtering loop the flows run. `ExpectOne` is the check "exactly one such
  event, with these fields". The lemmas prove that this check passes precisely
  when a single position holds the expected event.
- `vault_fuzz.dfy` (module `VaultFuzzTest`): class `VaultFuzz` with the four
  ledger fields, one method per flow, and the invariant checks.
  - A flow ends as an `Outcome`: `Done`, `Skip(reason)` carrying the source's
    skip string, or `Fail`. `Fail` stands for a reverted transaction or a
    failed assertion, either of which aborts the sequence.
  - `Valid()` is the invariant every flow keeps: the bounds stay in range,
    every shadow deposit stays non-negative, and the ledgers hold only chain
    accounts, the vault and the token.
  - `Custodied()` says the vault's shadow balance equals the sum of the shadow
    deposits. The constructor establishes it. Deposit, withdraw and set-limits
    keep it.

Shadow token balances are `int`, not `nat`. The withdraw guard (line 97)
calls `self.vault.balanceOf(self.vault)`. The vault's `balanceOf` is its
per-account deposit view: the deposit invariant (line 173) compares it with
`deposit_amounts`. So the guard compares the amount with the deposit the
vault records for its own address. It consults neither the vault's token
holdings nor the shadow vault balance. The model takes that reported value as
an argument.

`SweepThenWithdraw` shows where this leads. It builds a deposit of 5, an
emergency sweep and a withdrawal of 5, and needs two conditions from the
contracts:

- the vault reports a deposit of 5 for its own address, so the guard passes;
- the withdrawal is mined with its Withdrawn event, although the sweep left
  the vault holding no tokens.

The shadow vault balance then ends at -5 while `Valid()` still holds. The
next token-balance invariant check fails for every token view, because a
reported balance is never negative.

A flow that declines to run is usually said to change nothing. The code does
something slightly different, and the model follows the code. The emergency
withdraw flow reads `token_balances[self.vault]` (line 121) before it decides
to skip. That read inserts the vault's key with value 0 even on the skip path.
No value changes, but the key set grows, and the next token-balance invariant
check also covers the vault.

Inputs the model takes as arguments, because they come from outside the
repository's own code:

- the flows' random choices (`random_account`, `random_int`, `random.choice`),
  each with a `requires` clause giving the range it is drawn from, endpoints
  included;
- the outcome of each contract transaction (`Tx`: reverted, or mined with its
  events);
- the deposit the vault reports for its own address (`balanceOf(vault)`);
- the contracts' balance and bound views that the invariant checks compare against.

## Model

| member | source | states |
|---|---|---|
| `Ledger.Touch` | tests/test_vault_fuzz_solution.py:121 | reading a missing key through the subscript inserts it; every account reads the same value as before and the table's sum is unchanged |
| `Ledger.Add` | tests/test_vault_fuzz_solution.py:77 | `t[a] += d` inserts `a` if missing, raises `a`'s value by exactly `d`, leaves every other account's value alone and raises the sum by `d` |
| `Ledger.Move` | tests/test_vault_fuzz_solution.py:79-80 | moving `x` from one entry to another inserts both keys, lowers the source by `x` and raises the target by `x` (or leaves the value alone when they are the same account), touches no other account and keeps the sum |
| `Ledger.TotalAdd` | tests/test_vault_fuzz_solution.py:154-156 | a `+=` of `d` on any entry, present or missing, changes the sum of the table by exactly `d`; this is why a mint raises the total by the minted amount |
| `Ledger.CheckAll` | tests/test_vault_fuzz_solution.py:172-173 | walking the keys in any order and stopping at the first mismatch returns true exactly when every present key's reported value equals its table value |
| `Events.OfKind` | tests/test_vault_fuzz_solution.py:65-68 | the filtered events are events of the transaction, all of the requested type, every event of that type is kept, and the result is empty exactly when no event has that type |
| `Events.CollectEvents` | tests/test_vault_fuzz_solution.py:66-68 | the append loop over the transaction's events returns exactly the events of the requested type, in emission order |
| `Events.ExpectOneOnlyAt` | tests/test_vault_fuzz_solution.py:73-75 | if the check passes, some position holds the expected event and no other position holds an event of its type |
| `Events.OnlyAtExpectOne` | tests/test_vault_fuzz_solution.py:73-75 | if one position holds the expected event and no other holds its type, the check passes |
| `Events.ExpectOneIffUnique` | tests/test_vault_fuzz_solution.py:73-75 | the check "exactly one event of this type, with these fields" passes if and only if exactly one position holds an event of that type and it is the expected one |
| `Events.CheckEvent` | tests/test_vault_fuzz_solution.py:65-75 | the filter loop followed by the length and field comparison (the Deposited check here; the Withdrawn check at lines 102-109 is the same) returns true exactly when the transaction emitted one event of the expected type and it carries the expected fields |
| `Events.ExpectLimitsUpdated` | tests/test_vault_fuzz_solution.py:139-142 | the limits flow's comprehension-and-compare is true exactly when one DepositLimitsUpdated event was emitted and it carries the new minimum and maximum |
| `VaultFuzzTest.VaultFuzz.PreSequence` | tests/test_vault_fuzz_solution.py:31-41 | setup leaves both ledgers empty (every account reads 0), the bounds are those drawn with 0 <= min <= 10^18 and min <= max <= 10^20, and the invariant and the custody equation hold |
| `VaultFuzzTest.VaultFuzz.FlowDeposit` | tests/test_vault_fuzz_solution.py:48-80 | never skips; succeeds exactly when the deposit is mined with the expected single Deposited event; on success the user's deposit and the vault's balance each grow by the amount and the user's token balance is back to its old value; on failure only the recorded mint remains; no other entry changes, the total supply grows by the amount, and custody is preserved |
| `VaultFuzzTest.VaultFuzz.FlowWithdraw` | tests/test_vault_fuzz_solution.py:85-114 | skips with "No eligible users" exactly when no account has a positive deposit, and with "vault Insufficient balance" exactly when the deposit the vault reports for its own address is below the amount; skips and failures change nothing; on success the picked deposit drops by the amount and stays non-negative, the vault's balance drops and the user's rises by the amount, the token total is unchanged and custody is preserved |
| `VaultFuzzTest.VaultFuzz.FlowEmergencyWithdraw` | tests/test_vault_fuzz_solution.py:118-129 | skips exactly when the shadow vault balance is 0 (still inserting the vault key); otherwise, unless the sweep reverts, the vault entry becomes 0 and the owner gains the old vault balance; deposits and bounds never change and the token total is kept |
| `VaultFuzzTest.VaultFuzz.FlowSetDepositLimits` | tests/test_vault_fuzz_solution.py:133-145 | never skips; succeeds exactly when the single expected DepositLimitsUpdated event is seen, and then replaces the bounds by the drawn 0 <= min <= 10^18, min <= max <= 10^21; both ledgers stay unchanged |
| `VaultFuzzTest.VaultFuzz.FlowTransferTokenToRandom` | tests/test_vault_fuzz_solution.py:150-164 | never skips; fails exactly when the transfer reverts, with the mint still recorded; on success a distinct target gains the amount while the source is net-unchanged, and a self-transfer leaves the source at old value plus the amount; the token total grows by the amount and deposits are untouched |
| `VaultFuzzTest.VaultFuzz.InvariantDepositAmounts` | tests/test_vault_fuzz_solution.py:170-173 | passes exactly when the vault reports, for every account that has a shadow deposit key, that deposit |
| `VaultFuzzTest.VaultFuzz.InvariantTokenBalances` | tests/test_vault_fuzz_solution.py:175-178 | passes exactly when the token reports, for every account that has a shadow token key, that balance |
| `VaultFuzzTest.SweepThenWithdraw` | tests/test_vault_fuzz_solution.py:97-129 | a deposit of 5, an emergency sweep and a withdrawal of 5 all succeed when the vault reports a deposit of 5 for its own address and the withdrawal is mined with its event; they keep `Valid()` yet leave the shadow vault balance at -5, and the next token-balance invariant check then fails for every token view |

## Left out

- Contract deployment and every contract call are compiled contract code outside this repository: `MockERC20.deploy`, `SingleTokenVault.deploy`, `mint_erc20`, `approve`, `deposit`, `withdraw`, `emergencyWithdraw`, `setDepositLimits`, `transfer`, and the `balanceOf`, `minDepositAmount` and `maxDepositAmount` views. They enter only as arguments: a `Tx` for each state-changing call, a natural number for `balanceOf(vault)`, and view functions for the invariant checks.
- The two bound invariants (lines 180-186) are not modelled as members. Each is a single equality between a shadow bound and a foreign view (`minDepositAmount()`, `maxDepositAmount()`), and has no content beyond that equality. `FlowSetDepositLimits` states what the shadow bounds become.
- `mint_erc20` and `approve` are assumed to succeed. Their reverts would abort the sequence, which the model does not distinguish.
- Randomness and the fuzz engine (`random_int`, `random_account`, `random.choice`, `FuzzTest.run`, flow selection, invariant scheduling) become caller-chosen arguments with range preconditions. Sequences of flows are not modelled as a whole; each flow's contract states what it keeps, so any interleaving inherits it.
- The order of the eligible-user list (dictionary insertion order) is not modelled, since the pick is an argument. Likewise, the model fixes no order for the keys that the invariant checks visit.
- `may_revert` appears only as the `Reverted` transaction result. `tx.call_trace` and `logging` are diagnostics.
- Amounts drawn by the flows, event fields and reported views are unbounded natural numbers; shadow table values are unbounded integers, as in Python. The contracts' 256-bit unsigned arithmetic is not part of this model.
- The other test files (`tests/test_vault_fuzz.py`, the unit tests, the EIP-712 signing tests, the templates) call contracts straight through and contain no ledger logic. They are not part of this model.
