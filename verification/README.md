# payattn escrow — a Dafny model

This project models the payattn escrow program for Solana (an Anchor program).
An advertiser locks lamports for one ad offer in an escrow account. Later, one
`settle_impression` call pays that amount out:

- 70% to a user;
- 25% to a publisher;
- the rest to the platform.

The model covers:

- the `Escrow` account record;
- the two instructions, `create_escrow` and `settle_impression`;
- the `AlreadySettled` error;
- the create-if-absent uniqueness that Anchor's `init` gives on the seeds
  `["escrow", offer_id]`.

Modules, one per file:

- `Results` (`results.dfy`): a failure-compatible `Result`. An `Err` is an aborted
  transaction, which leaves no write behind.
- `Runtime` (`runtime.dfy`): the runtime facts the program relies on.
  - `U64` and `U8` types.
  - Addresses. A wallet is `Wallet(id)`. The escrow program-derived address (PDA)
    is `EscrowPda(offer_id)`, so address derivation is injective and never hits
    a wallet.
  - The lamport ledger, where a missing account holds 0.
  - The system program's `transfer`, modelled as one atomic debit then credit.
    It fails when the payer is short or when the payee would pass `u64::MAX`.
- `Split` (`split.dfy`): the 70/25/5 computation, including the u64 overflow of
  `amount * 70`.
- `PayattnEscrow` (`escrow.dfy`): the record, the program state (the records keyed
  by offer id, plus the balances), and the two instructions as pure functions from
  a state to a new state or an error.
- `Lifecycle` (`lifecycle.dfy`): traces of instructions, with failed transactions
  reverted. It also holds the funding invariant (`Valid`) and the lemmas that hold
  across any trace.

The program has one `settled` flag and one settlement instruction. That
instruction pays whichever accounts the caller passes. `Lifecycle.StoredPayeesUnused` states this: the payees stored at
creation are never read. A second consequence also follows from the code: a
record whose `amount * 70` overflows a u64 can never be settled, and nothing
else can move its lamports. `Lifecycle.UnsplittableEscrowIsStuck` states this.

## Model

| member | source | states |
|---|---|---|
| Runtime.Transfer | solana/payattn_escrow/programs/payattn_escrow/src/lib.rs:17-25 | A transfer succeeds exactly when the payer holds the amount and the payee does not pass u64::MAX. On success, the payer loses the amount, the payee gains it, and every other balance is unchanged. |
| Runtime.TransferConserves | solana/payattn_escrow/programs/payattn_escrow/src/lib.rs:25 | A transfer creates no lamports and destroys none. A self-transfer changes nothing. |
| Split.ComputeShares | solana/payattn_escrow/programs/payattn_escrow/src/lib.rs:54-57 | The split succeeds exactly when `amount * 70` fits in a u64. User = floor(70% of amount) and publisher = floor(25% of amount), each characterised by multiplication bounds. The three shares sum to the amount. |
| Split.PlatformShareBounds | solana/payattn_escrow/programs/payattn_escrow/src/lib.rs:55-57 | The platform share lies between floor(5% of amount) and that value plus 2, so the subtraction never underflows. |
| Split.PlatformRoundingReachesTwo | solana/payattn_escrow/programs/payattn_escrow/src/lib.rs:55-57 | For 7 lamports the split is 4/1/2, so the platform can get 2 lamports more than its truncated 5%. |
| Split.SplitOverflowBoundary | solana/payattn_escrow/programs/payattn_escrow/src/lib.rs:55 | 263524915338707880 is the largest amount the program can split. One lamport more fails with the overflow error. |
| Split.SplitTenThousand | solana/payattn_escrow/programs/payattn_escrow/src/lib.rs:54-57 | 10 000 lamports split as 7 000 / 2 500 / 500. |
| PayattnEscrow.CreateEscrow | solana/payattn_escrow/programs/payattn_escrow/src/lib.rs:12-44 | A duplicate offer id fails with AccountAlreadyInUse. Success happens exactly when the id is new and the transfer can go through, and a short advertiser fails with InsufficientFunds. On success, the new record holds exactly the inputs with `settled` false (its bump is the `bump` argument, which stands for the canonical bump Anchor derives), no other record changes, the advertiser loses exactly the amount, the PDA gains exactly the amount, and no other balance moves. |
| PayattnEscrow.PayShares | solana/payattn_escrow/programs/payattn_escrow/src/lib.rs:68-99 | The three transfers together move each share to its payee and the whole total out of the PDA. They succeed when the PDA covers the total and no payee overflows; when the PDA is not a payee, these conditions are also necessary. A funded PDA can fail only by a payee overflow. |
| PayattnEscrow.SettleImpression | solana/payattn_escrow/programs/payattn_escrow/src/lib.rs:48-112 | Errors: no record gives AccountNotInitialized, a settled record gives AlreadySettled, an unsplittable amount gives ArithmeticOverflow, and any other failure is a transfer failure. A funded PDA never fails for lack of funds. Success happens exactly under CanSettle when the PDA is not a payee, and CanSettle always suffices. On success, `settled` becomes true, no other field or record changes, and every balance moves by the 70/25/5 payout to the accounts named in the call. |
| Lifecycle.Step | solana/payattn_escrow/programs/payattn_escrow/src/lib.rs:25-103 | By definition, a transaction whose instruction fails (the `?` after each transfer, the `require!` on `settled`) is reverted and leaves the state as it was; a successful one's result becomes the new state. Either way no record is removed, a record changes at most by `settled` going from false to true, and the funding invariant `Valid` is kept. |
| Lifecycle.StepPreservesValid | solana/payattn_escrow/programs/payattn_escrow/src/lib.rs:12-112 | Each instruction keeps three facts about every record: it sits under its own offer id, its stored advertiser is a wallet, and if unsettled its PDA holds at least its amount. |
| Lifecycle.RunPreservesValid | solana/payattn_escrow/programs/payattn_escrow/src/lib.rs:12-112 | The funding invariant holds after every trace of creates and settles. |
| Lifecycle.StepEvolvesRecords | solana/payattn_escrow/programs/payattn_escrow/src/lib.rs:101-103 | One instruction never removes a record. It never changes any field but `settled`, and never resets `settled`. |
| Lifecycle.RunEvolvesRecords | solana/payattn_escrow/programs/payattn_escrow/src/lib.rs:28-36 | Along any trace, a record's fields other than `settled` stay as create wrote them, and `settled` only goes from false to true. |
| Lifecycle.StepKeepsPdaFunds | solana/payattn_escrow/programs/payattn_escrow/src/lib.rs:68-99 | Only a successful settle of an offer lowers the balance of that offer's PDA. |
| Lifecycle.UnsplittableEscrowIsStuck | solana/payattn_escrow/programs/payattn_escrow/src/lib.rs:55 | An unsettled record whose amount exceeds the split bound stays unsettled and unchanged along any trace. Its PDA never loses lamports. |
| Lifecycle.SettleAtMostOnce | solana/payattn_escrow/programs/payattn_escrow/src/lib.rs:50 | After a successful settle, every further settle of the same offer fails with AlreadySettled, whatever accounts it names, and changes nothing. |
| Lifecycle.DuplicateCreateChangesNothing | solana/payattn_escrow/programs/payattn_escrow/src/lib.rs:118-123 | A create for an offer id that already has a record fails with AccountAlreadyInUse and leaves the state unchanged. |
| Lifecycle.ValidSettleIsFunded | solana/payattn_escrow/programs/payattn_escrow/src/lib.rs:68-99 | Under the invariant, the PDA covers an unsettled record's amount. A settle of a splittable record can then fail only by a payee overflow. |
| Lifecycle.StoredPayeesUnused | solana/payattn_escrow/programs/payattn_escrow/src/lib.rs:143-157 | Changing the stored user, publisher and platform of a record does not change whether a settle succeeds or where the lamports go. |
| Lifecycle.SettleConservesLamports | solana/payattn_escrow/programs/payattn_escrow/src/lib.rs:68-99 | With the PDA and three distinct payees, settlement preserves their total and lowers the PDA by exactly the record's amount. |
| Lifecycle.CreateScenario | solana/payattn_escrow/programs/payattn_escrow/src/lib.rs:12-44 | Worked example: a wallet holding 20 000 escrows 10 000, so it keeps 10 000, the PDA holds 10 000, and the record is unsettled. |
| Lifecycle.SettleScenario | solana/payattn_escrow/programs/payattn_escrow/src/lib.rs:48-112 | Worked example: a funded 10 000-lamport escrow pays 7 000 / 2 500 / 500 and is left with 0. A second settle is refused. |

## Left out

- Rent and account space are not modelled. That covers the rent-exempt lamports `init` takes from the advertiser, the `space` arithmetic, and the runtime's rent-state checks after the payout. This is account-size bookkeeping, not escrow logic.
- Address hashing is not modelled. A PDA is named by its offer id, and the bump is stored as an opaque `U8`. The bump is a free argument of `CreateEscrow` standing for the canonical bump Anchor derives from the seeds, so the model does not tie it to the offer id: two creates that differ only in bump both succeed. Solana's 32-byte limit per seed, which rejects longer offer ids, is a derivation detail and is left out too.
- The limit on serialised `offer_id` length (its 128-byte slot) is left out, because it comes from the space bookkeeping.
- The CPI plumbing is left out: `CpiContext`, signer seeds, and `invoke_signed`. Each transfer is one atomic debit and credit on the balance map.
- The system program's rule that a transfer source must carry no data is left out. So settle's transfers out of the program-owned escrow succeed in the model whenever the lamports allow. Whether the real runtime permits them is a runtime matter.
- Signature checking is left out. The advertiser is taken to be an authenticated wallet (`Wallet(id)`), which is what `Signer` guarantees.
- Anchor's account checks other than record existence are left out: owner, discriminator and duplicate-account checks. A missing record is `AccountNotInitialized`.
- The `msg!` logging, `declare_id!`, and the derive and attribute macros are left out. The only part of the macros kept is the uniqueness `init` implies.
- Overflow checks are assumed on, so `amount * 70` past `u64::MAX` aborts (`ArithmeticOverflow`) and does not wrap. Anchor workspaces build with `overflow-checks = true`, but the Cargo profile is not part of this model.
- `lib.rs` has no refund, expiry, reserve, per-party settlement flags or payee identity check; the model adds none.
- PayattnEscrow.SettleImpression: the "only if" half of the success condition is stated only when the escrow PDA is not one of the payees. A caller who names the PDA as a payee gets lamports handed back to it between transfers, so the PDA then needs less than the full amount up front.
- PayattnEscrow.PayShares: the same gap as `SettleImpression`. Its success condition is stated as necessary only when the escrow PDA is not one of the payees, because a PDA named as a payee is refilled between the transfers.
