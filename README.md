# CW20 token ledger: instantiation and capped minting

A Dafny model of the core of a CosmWasm CW20-style token contract. The
contract keeps two stored items: the `BALANCES` map from address to
`Uint128` amount and the `TOKEN_INFO` record (name, symbol, decimals,
total supply, and an optional minter with an optional supply cap).

- **Instantiation** checks that decimals are at most 18. It then walks the
  initial distribution left to right: each address is validated, its amount
  is written into `BALANCES`, and the amount is added to a running total
  supply. A total over the minter's cap is refused. The minter address is
  validated, and the token record is stored.
- **Mint** authorises the sender against the one stored minter. It raises the
  total supply, enforces the cap, validates the recipient and credits it
  (an absent balance counts as zero). It logs `action=mint`, `to`, `amount`.
- **Message checks**: `validate` (decimals ≤ 18) and `get_cap` (the
  minter's cap; no cap without a minter).

Modelling choices:

- Storage is the class `Contract.Cw20Contract`. It has two fields: `balances`
  (a `map`) and `tokenInfo` (an optional record). `Valid()` is the ledger
  invariant: balances sum to the total supply, the total supply is within the
  cap, and decimals are at most 18.
- `Uint128` is a subset of `nat` below 2^128. Its `+` panics on overflow, and
  a panic aborts the call. The model returns `Overflow` there. Nothing wraps.
- The host rolls back every failed call. So every error leaves both stored
  items as they were. This holds even though `execute_mint` saves the token
  record before it validates the recipient: the model saves and then restores.
- Address validation is a host call. It is a parameter `addrValid: Addr -> bool`
  of each entry point. A validated address is the input text.
- Duplicate addresses in the initial distribution are modelled as written. The
  later row overwrites the stored balance, but the total counts both rows.
  Conservation is proved for distinct addresses (`SeedConserves`).
  `DuplicateBreaksConservation` proves the converse gap for any distribution:
  from fresh storage, the balances never sum to more than the total supply.
  They sum to strictly less as soon as an address with a positive amount
  appears again later. Summing repeated rows, or rejecting them, would keep
  conservation; the code overwrites, and the model follows the code. The
  commented-out dedupe in `src/contract.rs:91-96` shows that duplicates were
  meant to be rejected.
- `InitMsg` in `src/msg.rs` declares `minter: Option<Addr>` and a top-level
  `cap`, but `get_cap` reads the cap from the minter. `instantiate` reads
  `msg.mint` with fields `minter` and `cap`. The model follows that evident
  intent: `minter: Option<MinterMsg(minter, cap)>`. It keeps the top-level
  `cap` field, which nothing reads.
- The error order follows the code. In `instantiate`: decimals, then per row
  the address and then the overflow, then the cap, then the minter address.
  In mint: authorisation, supply overflow, cap, recipient address, recipient
  overflow. The instantiation cap error is the generic library error
  "Initial supply greater than cap", not a dedicated kind.
- A zero-amount mint succeeds and changes nothing except creating a zero
  entry for the recipient, as the code does.

`Scenarios.CashScenario` is a client of the contract. It instantiates a
"Cash" token (symbol "CASH", 9 decimals) in which `addr1` holds 11223344 and
`asmodat` is the minter, capped at 511223344. It then mints 1000 to `addr2`
twice and checks that the effects add up. An `attacker` is refused with
`Unauthorized`, and a mint past the cap is refused with `CannotExceedCap`.
Each outcome follows from the contracts alone. `Scenarios.DecimalsScenario`
checks that 19 decimals are refused and 18 accepted.

## Model

| member | source | states |
|---|---|---|
| `Msg.Validate` | src/msg.rs:28-33 | fails exactly when decimals exceed 18, with the "Decimals must not exceed 18" error; the result depends on nothing but the decimals |
| `Msg.GetCap` | src/msg.rs:24-26 | no cap without a minter, even when the message's own cap field is set; with a minter, the minter's cap (possibly none) |
| `Contract.MinterOf` | src/contract.rs:54-60 | the stored minter exists exactly when the message names one, with the message's address, and the cap the stored record enforces is the message's `get_cap` |
| `Contract.TokenInfo.GetCap` | src/contract.rs:122 | the stored record's cap is the minter's cap, and none without a minter |
| `CosmwasmStd.CheckedAdd` | src/contract.rs:85 | `Uint128` addition yields the exact sum when it fits below 2^128 and fails otherwise; it never wraps |
| `CosmwasmStd.ToDecimal` | src/contract.rs:140 | the amount attribute is a non-empty string of decimal digits with no leading zero unless the amount is zero |
| `CosmwasmStd.DecimalRoundTrip` | src/contract.rs:140 | reading the amount attribute back as a decimal number gives the minted amount |
| `CosmwasmStd.ToDecimalInjective` | src/contract.rs:140 | different amounts are logged as different attribute texts |
| `Contract.MintAttributes` | src/contract.rs:137-140 | a mint logs exactly three attributes in order: action=mint, to=recipient, and an amount whose decimal text reads back as the amount |
| `Balances.Get` | src/contract.rs:134 | an address without an entry reads as zero, an address with one reads as its stored amount |
| `Balances.Credit` | src/contract.rs:131-135 | crediting adds exactly the amount to the recipient (absent counted as 0), adds the recipient's key if missing, and changes no other balance |
| `Balances.SumValuesCredit` | src/contract.rs:121-135 | a credit raises the sum of all balances by exactly the amount, as the mint raises the total supply |
| `Balances.SumValuesOverwrite` | src/contract.rs:84 | writing an amount over an address's balance changes the sum of balances by the new amount minus the old balance |
| `Balances.BalanceAtMostSum` | src/contract.rs:134 | no balance exceeds the sum of balances, so under conservation the recipient's addition cannot overflow once the supply addition did not |
| `Contract.IsMinter` | src/contract.rs:106-118 | the sender is authorised only if a token record is stored and it has a minter |
| `Contract.MinterIsUnique` | src/contract.rs:110-118 | at most one address is authorised to mint: the one stored minter |
| `Contract.SeedFrom` | src/contract.rs:81-88 | the distribution applied row by row from the left: on success the total never falls below its start and no stored key disappears; the only failures are an invalid address and overflow |
| `Contract.SeedOutcome` | src/contract.rs:81-88 | seeding succeeds iff every address validates and the running total stays below 2^128; the total returned is the sum of the amounts; with all addresses valid the only failure is overflow |
| `Contract.SeedFirstInvalidAddress` | src/contract.rs:82-83 | when the total fits but seeding fails, the error names the first row whose address the host refuses |
| `Contract.SeedBalances` | src/contract.rs:82-85 | after seeding, each listed address holds the amount of its last row, unlisted addresses keep their previous entry (none, on fresh storage), and no other key appears |
| `Contract.SeedConserves` | src/contract.rs:81-86 | with distinct addresses not yet stored, the sum of seeded balances equals the seeded total supply |
| `Contract.SeedShortfallGrows` | src/contract.rs:84-85 | each row overwrites instead of adding, so the amount by which the total supply exceeds the sum of balances never shrinks during seeding |
| `Contract.SeedShortfallGrowsStrictly` | src/contract.rs:84-85 | overwriting a positive stored balance with a later row makes that excess grow strictly |
| `Contract.SeedShortfallFromDuplicate` | src/contract.rs:84-85 | an address named at row i with a positive amount and again at a later row j makes the excess grow strictly |
| `Contract.DuplicateBreaksConservation` | src/contract.rs:84-85 | from fresh storage, the seeded balances never sum to more than the total supply, and sum to strictly less when an address with a positive amount is named again later |
| `Contract.Cw20Contract.CreateAccounts` | src/contract.rs:75-89 | the loop writes exactly the seeded balances and returns the seeded total, or returns the seeding error |
| `Contract.Cw20Contract.Instantiate` | src/contract.rs:35-74 | decimals over 18 fail; the seeding error, the cap error (a total equal to the cap passes) and the invalid minter address follow in the source's order; success stores the seeded balances and a record with the given name, symbol, decimals, the computed total and the minter/cap (none without a minter); errors store nothing; from empty storage with distinct addresses the ledger invariant holds |
| `Contract.Cw20Contract.ExecuteMint` | src/contract.rs:99-142 | no record, no minter or a different sender fails Unauthorized; then supply overflow, a total over the cap (CannotExceedCap), an invalid recipient and recipient overflow fail in that order; success raises the total supply and the recipient's balance by exactly the amount, changes no other balance and logs action=mint, to, amount; every error leaves storage unchanged; the ledger invariant (conservation, total within cap) is preserved, and under it the recipient's addition never overflows |

## Left out

- Queries for balance, token info and minter: no query code is in the modelled source files.
- `set_contract_version` and the contract name and version constants: migration metadata only.
- Logo and marketing imports, `LOGO_SIZE_CAP` and the allowance maps: no behaviour in the modelled files uses them.
- The internals of the host's address validation: a foreign call, modelled as the `addrValid` parameter.
- The storage library mechanics (`Item`, `Map`, buckets, singletons): storage is a Dafny `map` and an optional record, and a failed save is not modelled.
- Serialisation, schema derives, `to_binary` and entry-point dispatch: wire glue with no ledger behaviour.
- `src/state.rs`: declarations only, and its unused storage keys have no behaviour. Its `Meta` record is not the stored record: it keeps the minter and the cap side by side, so it could hold a cap without a minter.
- The stored `TokenInfo` and `MinterData` types, the `BALANCES` and `TOKEN_INFO` items and `TokenInfo::get_cap` are not part of this model's source files: `src/contract.rs` imports them from `src/state.rs`, which does not declare them. The model takes their shape from their use at `src/contract.rs:55-58`, `63-69` and `122`. The record's only cap is the one inside `mint`, so `Contract.TokenInfo.GetCap` reads it from the minter.
- The `Env` and `MessageInfo` arguments beyond the sender: the modelled code reads nothing else from them.
- Panics are modelled as an `Overflow` error value. The host's distinction between a panic and an error return is not modelled. Both abort the call and roll it back.
