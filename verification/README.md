# RentFlow lease records, modelled in Dafny

RentFlow's on-chain program keeps one lease account per lease id. The account's address is derived from the seeds `["lease", lease_id]`. Two parties take part: the manager who creates the lease and the tenant named at creation. The program has four instructions:

- `initialize_lease` validates the id length, the rent and the date range, in that order. It then creates the account in the `Pending` state.
- `sign_lease` stores the manager's or the tenant's signature digest. When both parties have signed, it activates the lease in the same instruction.
- `update_lease_status` lets either party move an `Active` lease to `Terminated`, or to `Completed` once the end date has passed.
- `verify_lease` reports whether the lease is signed by both parties and `Active`.

The repository holds four versions of the program, and each is one Dafny module:

| module | file | what it is |
|---|---|---|
| `RentflowCore` (rentflow_core.dfy) | programs/rentflow-core/src/lib.rs | the full program |
| `SolpgClean` (solpg_clean.dfy) | programs/rentflow-core/SOLPG_CLEAN.rs | a copy of the full program without the logging |
| `Minimal` (minimal.dfy) | programs/rentflow-core/MINIMAL.rs | a draft with an `is_active` flag and no checks |
| `FinalWorking` (final_working.dfy) | programs/rentflow-core/FINAL_WORKING.rs | a draft with signed flags only |

`Platform` (platform.dfy) holds the shared pieces. These are Rust's `u8`, `u64` and `i64`, 32-byte arrays and keys, the framework's account errors, and `Result`.

How the model is built:

- **The ledger.** The set of lease accounts is a `map` from the lease id's UTF-8 bytes to the record. This stands in for the derived address.
- **Creating an account.** Anchor's `init` is create-if-absent on that map. It runs in account validation, before the handler body. So initializing a taken id fails with `AccountAlreadyInUse` ahead of any of the handler's own checks.
- **Missing accounts.** Sign, update and verify on an id that holds no account fail with `AccountNotInitialized`.
- **Clock and signer.** The clock reading (`now`) and the signing key are parameters.
- **Failed instructions.** A failing instruction is reverted by the runtime. The model therefore says that every error leaves the ledger unchanged.

Each handler is a method of a `Ledger` class whose `leases` field it updates in place. In `RentflowCore` and `SolpgClean` the `lease` account is copied out, changed one field at a time, and written back. `InitializeLease` starts from the zero-filled account that `init` creates and writes its sixteen fields in the source's order. Each method is proved against a pure function:

- `Initialize`, `Sign`, `UpdateStatus` and `Verify` act on one record.
- `Execute` acts on the whole ledger.

The properties are proved about these functions. The lib.rs properties are also proved over any history (`Run`, a sequence of transactions), including:

- the record invariant (`Consistent`);
- the monotone evolution of each record (`Evolves`): the terms never change, signatures are never withdrawn, nothing returns to `Pending`, and terminal leases are frozen.

SOLPG_CLEAN.rs declares the same `Lease`, `LeaseStatus` and `LeaseError` as lib.rs, so `SolpgClean` reuses those declarations. Its handlers are written again from that file and proved against `RentflowCore.Execute`. This shows that the two versions behave identically.

Three behaviours of the code are easy to misread, and the model follows the code in each:

- **Id length.** The error message for `LeaseIdTooLong` speaks of 64 characters (programs/rentflow-core/src/lib.rs:272). The check itself counts UTF-8 bytes (`String::len()`), so the id is modelled as a byte sequence.
- **Zero signatures.** Nothing rejects an all-zero signature digest (`ZeroSignatureAccepted`). The model therefore proves only "an unsigned party's signature is zero", not "a signature is non-zero iff its flag is set".
- **Distinct parties.** Nothing requires the tenant key to differ from the manager key. When they are equal, the manager branch of `sign_lease` always wins, so such a lease stays `Pending` forever (`SelfDealingSignNeverActivates`, `SelfDealingLeaseStaysPending`).

## Model

| member | source | states |
|---|---|---|
| RentflowCore.Initialize | programs/rentflow-core/src/lib.rs:36-66 | The checks run in the order id byte length ≤ 64, rent > 0, end > start, and the first failure decides among `LeaseIdTooLong`, `InvalidRentAmount` and `InvalidDateRange`. It succeeds exactly when all three hold. The new record is `Pending`, unsigned, with zero signatures, `activated_at = 0` and `created_at = now`; the manager is the caller and the other fields are copied from the inputs. The new record satisfies the invariant, and `verify` on it is false. |
| RentflowCore.Sign | programs/rentflow-core/src/lib.rs:87-126 | A non-Pending lease gives `LeaseNotPending` before identity is checked, and a stranger gets `UnauthorizedSigner`. Only those errors and `AlreadySigned` occur. On success exactly one flag flips, and the record is a later version of the old one: the terms are unchanged and no signature is lost. The status is `Active` iff both flags are set, and then `activated_at = now`. The record invariant is kept. |
| RentflowCore.UpdateStatus | programs/rentflow-core/src/lib.rs:139-169 | A non-party gets `UnauthorizedSigner` first. It succeeds exactly for a party on an `Active` lease asking for `Terminated`, or for `Completed` with `now >= end_date`; early completion gives `LeaseNotEnded` and every other pair gives `InvalidStatusTransition`. On success only `status` changes, and the invariant is kept. |
| RentflowCore.Verify | programs/rentflow-core/src/lib.rs:180-184 | True implies both parties signed. On a consistent record it is true exactly when the status is `Active`. |
| RentflowCore.SignAsManager | programs/rentflow-core/src/lib.rs:96-104 | The manager's key on a Pending lease the manager has not signed sets only the manager's flag and signature, even when the tenant key is the same. |
| RentflowCore.SignAsTenant | programs/rentflow-core/src/lib.rs:105-112 | The tenant's key (distinct from the manager's) sets only the tenant's flag and signature. |
| RentflowCore.SignTwiceFails | programs/rentflow-core/src/lib.rs:96-112 | A party that already signed a Pending lease gets `AlreadySigned`. |
| RentflowCore.ZeroSignatureAccepted | programs/rentflow-core/src/lib.rs:98-103 | An all-zero signature digest is accepted and stored as the manager's signature. |
| RentflowCore.SelfDealingSignNeverActivates | programs/rentflow-core/src/lib.rs:97-124 | When the manager key equals the tenant key, a consistent lease is Pending and no signature can make it Active or verified. |
| RentflowCore.BothSignaturesActivate | programs/rentflow-core/src/lib.rs:96-124 | Manager then tenant, or tenant then manager: the first signature leaves the lease Pending, the second makes it verify, with `activated_at` equal to the second signature's time. |
| RentflowCore.OnlyActiveLeasesMove | programs/rentflow-core/src/lib.rs:150-166 | For a manager or tenant caller, from `Pending`, `Terminated` or `Completed`, every requested status gives `InvalidStatusTransition`. (A non-party gets `UnauthorizedSigner` first, as `UpdateStatus` states.) |
| RentflowCore.Execute | programs/rentflow-core/src/lib.rs:197-234 | `init` on a taken id fails with `AccountAlreadyInUse`, and the other instructions on a missing id fail with `AccountNotInitialized`. A successful instruction keeps the ledger consistent, adds at most its own id, and leaves every record other than the one it names exactly as it was. Each existing record becomes a later version of itself (`Evolves`). Verify leaves the ledger unchanged. |
| RentflowCore.RunKeepsConsistent | programs/rentflow-core/src/lib.rs:26-170 | Every ledger reachable by any sequence of transactions from a consistent ledger is consistent. |
| RentflowCore.RunGrows | programs/rentflow-core/src/lib.rs:83-170 | Over any history records are never removed, terms never change, signatures are never withdrawn, nothing returns to Pending or is re-activated, and terminal records are unchanged. |
| RentflowCore.TerminalLeaseIsFrozen | programs/rentflow-core/src/lib.rs:150-166 | A Terminated or Completed lease is identical after any later history. |
| RentflowCore.VerifyMeansActive | programs/rentflow-core/src/lib.rs:182-184 | In every reachable ledger, `verify` is true exactly for Active leases. |
| RentflowCore.SelfDealingLeaseStaysPending | programs/rentflow-core/src/lib.rs:97-124 | In every reachable ledger, a lease whose manager key is its tenant key is Pending and does not verify. |
| RentflowCore.UnnamedLeaseIsUntouched | programs/rentflow-core/src/lib.rs:197-234 | Over any history in which no transaction names a lease id, that id's record is exactly as before, or still absent. |
| RentflowCore.LeaseIdIsTakenForever | programs/rentflow-core/src/lib.rs:200-205 | Once an id holds a lease, every later initialize with that id fails with `AccountAlreadyInUse`, whatever its other arguments. |
| RentflowCore.Ledger.InitializeLease | programs/rentflow-core/src/lib.rs:26-75 | It checks in the handler's order, then starts from the zero-filled account and writes the sixteen fields one at a time. The outcome and new ledger are those of `Execute`; on error the ledger is unchanged; the ledger invariant is kept. |
| RentflowCore.Ledger.SignLease | programs/rentflow-core/src/lib.rs:83-127 | It updates the loaded record step by step (flag, signature, then status and activation time). The outcome and new ledger are those of `Execute`; on error the ledger is unchanged; the invariant is kept. |
| RentflowCore.Ledger.UpdateLeaseStatus | programs/rentflow-core/src/lib.rs:135-170 | It checks the party, then matches on (status, new status). The outcome and new ledger are those of `Execute`; on error the ledger is unchanged; the invariant is kept. |
| RentflowCore.Ledger.VerifyLease | programs/rentflow-core/src/lib.rs:177-192 | It changes nothing. For an existing lease it returns `Verify` of the record, which is true exactly when the lease is Active, and then both parties have signed; for a missing one it returns `AccountNotInitialized`. |
| SolpgClean.Ledger.InitializeLease | programs/rentflow-core/SOLPG_CLEAN.rs:9-45 | Same order of checks (id length, rent, date range), then the same sixteen field writes on the zero-filled account. Its outcome and new ledger equal lib.rs's `Execute`; errors change nothing. |
| SolpgClean.Ledger.SignLease | programs/rentflow-core/SOLPG_CLEAN.rs:47-78 | Pending is checked before identity, and the manager branch before the tenant branch. It auto-activates when both have signed. Its outcome and new ledger equal lib.rs's `Execute`; errors change nothing. |
| SolpgClean.Ledger.UpdateLeaseStatus | programs/rentflow-core/SOLPG_CLEAN.rs:80-108 | Parties only, and only Active→Terminated or Active→Completed after the end date. Its outcome and new ledger equal lib.rs's `Execute`; errors change nothing. |
| SolpgClean.Ledger.VerifyLease | programs/rentflow-core/SOLPG_CLEAN.rs:110-114 | It returns the same value as lib.rs's `Verify`, which is true exactly for Active leases. |
| Minimal.Initialize | programs/rentflow-core/MINIMAL.rs:14-21 | The caller becomes the manager, all three flags are false (so the invariant holds), and the rent is stored as given. |
| Minimal.Sign | programs/rentflow-core/MINIMAL.rs:24-39 | The manager's key sets the manager flag and any other key sets the tenant flag; it never fails. Id, manager and rent are kept, and `is_active` is never reset. Afterwards `is_active` holds iff it held before or both flags are set, so "active iff both signed" is preserved. |
| Minimal.SignIdempotent | programs/rentflow-core/MINIMAL.rs:24-39 | Repeating a key's signature changes nothing. |
| Minimal.SignCommutes | programs/rentflow-core/MINIMAL.rs:28-36 | Two signatures give the same record in either order. |
| Minimal.ZeroRentAccepted | programs/rentflow-core/MINIMAL.rs:9-22 | On a ledger where the id is free, initializing with rent 0 succeeds and the stored record has rent 0: nothing rejects a zero rent. |
| Minimal.AnyKeyCompletesActivation | programs/rentflow-core/MINIMAL.rs:28-36 | Once the manager has signed, any other key (not only a tenant) activates the lease. |
| Minimal.SignAllMonotone | programs/rentflow-core/MINIMAL.rs:24-39 | Over any sequence of signatures, id, manager and rent are kept, flags and `is_active` never clear, and the invariant holds. |
| Minimal.SignAllSetsFlags | programs/rentflow-core/MINIMAL.rs:28-36 | For any record and any sequence of signatures, the manager flag is set if the manager signed and the tenant flag if some other key signed; a consistent record stays consistent. |
| Minimal.ManagerAndAnotherKeyActivate | programs/rentflow-core/MINIMAL.rs:14-36 | A fresh lease signed, in any order, by the manager and by any other key is active. |
| Minimal.Ledger.InitializeLease | programs/rentflow-core/MINIMAL.rs:9-22 | A taken id fails with `AccountAlreadyInUse` and changes nothing. Otherwise the new record is `Initialize`'s. The ledger invariant is kept. |
| Minimal.Ledger.SignLease | programs/rentflow-core/MINIMAL.rs:24-39 | It updates the record in place to `Sign`'s result and never fails for an existing lease. A missing id gives `AccountNotInitialized`. The invariant is kept. |
| FinalWorking.Create | programs/rentflow-core/FINAL_WORKING.rs:9-16 | The caller becomes the manager, the id is stored, and both flags are false. |
| FinalWorking.Sign | programs/rentflow-core/FINAL_WORKING.rs:18-29 | The manager's key sets only the manager flag and any other key only the tenant flag; id and manager are kept and it never fails. |
| FinalWorking.SignIdempotent | programs/rentflow-core/FINAL_WORKING.rs:22-26 | Repeating a key's signature changes nothing. |
| FinalWorking.SignAllFlags | programs/rentflow-core/FINAL_WORKING.rs:18-29 | After any sequence of signatures, id and manager are kept. The manager flag is set iff it was set or the manager signed, and the tenant flag iff it was set or some other key signed. |
| FinalWorking.Ledger.CreateLease | programs/rentflow-core/FINAL_WORKING.rs:9-16 | A taken id fails with `AccountAlreadyInUse` and changes nothing. Otherwise the new record is `Create`'s. |
| FinalWorking.Ledger.SignLease | programs/rentflow-core/FINAL_WORKING.rs:18-29 | It updates the record to `Sign`'s result, with no activation. A missing id gives `AccountNotInitialized`. |

## Left out

- `msg!` logging is output only and changes no state. The `#[event]` structs are declared but never emitted.
- The framework's account plumbing is left out: the `Accounts` contexts, `Signer` checks, serialization, the 8-byte discriminator, `payer`, rent funding, `system_program` and `declare_id!`. The model keeps only `init`'s create-if-absent behaviour and the failure for a missing account.
- The derivation of the program address is left out, and the ledger is keyed by the lease id's bytes instead. The `bump` byte is an opaque parameter copied into the record. The platform limits each seed to 32 bytes, and `lease_id.as_bytes()` is a seed (programs/rentflow-core/src/lib.rs:204, and the same in the other three files). So on-chain `initialize_lease` with an id longer than 32 bytes fails at address derivation, before the handler runs, and no account for such an id ever exists. The model does not capture this: it initializes ids of 33 to 64 bytes, and `LeaseIdTooLong` is reachable in the model but not on-chain.
- The account `space` arithmetic is left out. As written, SOLPG_CLEAN.rs reserves fewer bytes than a 64-byte id needs, and the two drafts reserve room for short ids only. The seed limit above already rejects every id longer than 32 bytes. The remaining space shortfalls of the two drafts, for ids short enough to pass the seed limit, are not modelled either.
- `Clock::get()` and the signing key are parameters. A failing clock read is not modelled.
- Security-deposit escrow is only mentioned in a comment and is not implemented.
- Concurrency and replication are left out. Each transaction is one atomic step, and a failed one commits nothing.
- Integer widths are kept as ranges (`u64`, `i64`). The handlers only compare numbers and never compute with them, so there is no overflow to model.
- Rust `String` values are valid UTF-8; the model's byte-sequence ids are not restricted to valid UTF-8.
