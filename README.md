# Bonsol channel program: instruction handlers

Bonsol lets a requester ask for a RISC Zero program (an *image*) to be run off
chain and proved, with the result settled on Solana. The on-chain channel
program has four handlers, each one atomic transaction over a fixed, indexed
list of accounts:

- **deploy** registers an image once, at the address derived from the hash of
  its image id;
- **execute** admits an execution request: account guards, the input-count
  rule against the deployment, and the request written to a fresh execution
  account;
- **claim** lets a prover take a request by escrowing half its tip in a claim
  account, take over a claim whose block commitment has passed, or close a
  request that has expired;
- **status** settles a request: expiry, an incomplete report, a rejected
  proof, or a verified proof with an optional callback into the requester's
  program, the tip paid to the prover and the execution account closed.

The model is a Dafny ledger (`Accounts.Ledger`: accounts keyed by address,
each with lamports, an owning program and decoded data, plus the log of
cross-program invocations made). Each handler is an imperative method on the
ledger (`ProcessDeployV1`, `ProcessExecuteV1`, `ProcessClaimV1`,
`ProcessStatusV1`) proved equal to a specification function (`DeploySpec`,
`ExecuteSpec`, `ClaimSpec`, `StatusSpec`). The function describes the handler
as written, including the effects an error leaves behind before the runtime
discards them. `Processor.RunInstruction` runs a handler as a transaction and
restores the ledger when it fails. Every handler keeps the set of accounts and
the total of their lamports. The properties of each handler are stated on its
specification function and in lemmas next to it.

Things the handlers take from outside are fields of `Runtime.Env` and are not
interpreted: program-derived address search, image-id hashing, prover-version
parsing and its default, and the RISC Zero verifier. The current slot is a
parameter. The helpers from the program's `utilities` and `assertions`
modules are not part of this model, so they are given these assumed
behaviours:

- a transfer moves `n` lamports and fails with `InsufficientFunds` when the
  source holds fewer;
- closing an execution account sends all its lamports to the target and
  records the code;
- creating or saving an account sets its owner and data and moves no lamports;
- `ensure_0` means no lamports and no data.

The code is modelled as written, including these behaviours:

- settlement checks the execution address against `accounts[0]`, the
  requester;
- settlement discards the result of the input-digest comparison;
- a supplied writable callback account is refused only when the stored flag is
  255, because the code tests the bitwise not of the flag;
- the callback instruction is addressed to `accounts[1]`;
- the tip is paid to `accounts[2]` without reading the claim record;
- a claim on an expired request closes it to the claimer;
- a takeover refunds the old stake to the new claimer;
- admission never calls `validate_er`;
- admission checks the execution address against `accounts[3]`;
- admission's last account guard requires the system program account to be
  this program or to be owned by the upgradeable loader. Together with the
  guard before it, this makes admission fail unless the system program's
  account is owned by that loader (`Execute.CheckExecutionAccounts`).

## Model

| member | source | states |
|---|---|---|
| Accounts.Moved | onchain/bonsol/src/actions/claim.rs:144 | moving lamports debits the source and credits the target by the same amount, keeps every owner, all data and the total, and leaves other accounts alone |
| Accounts.Transfer | onchain/bonsol/src/actions/claim.rs:153 | a transfer succeeds exactly when the source can cover it; a failed one changes nothing |
| Accounts.CloseAccount | onchain/bonsol/src/actions/status.rs:168 | closing records the code and keeps the owner; when the target is another account, the closed account is left with no lamports and the target gains its whole balance; closing to itself keeps the balance; the total is kept |
| Accounts.Written | onchain/bonsol/src/actions/claim.rs:95-102 | creating or saving an account sets its owner and data and keeps its lamports and every other account |
| Accounts.Ledger.TransferLamports | onchain/bonsol/src/actions/claim.rs:144 | the ledger after a transfer is `Transfer` of the ledger before |
| Accounts.Ledger.CleanupExecutionAccount | onchain/bonsol/src/actions/claim.rs:132-136 | the ledger after cleanup is `CloseAccount` of the ledger before |
| Accounts.Ledger.CreateProgramAccount | onchain/bonsol/src/actions/claim.rs:95-102 | the account becomes program-owned, zero-filled space |
| Accounts.Ledger.SaveStructure | onchain/bonsol/src/actions/deploy.rs:83-90 | the account becomes program-owned and holds the record |
| Accounts.Ledger.SaveClaim | onchain/bonsol/src/actions/claim.rs:152 | the claim account holds the claim record under its current owner |
| Accounts.Ledger.InvokeSigned | onchain/bonsol/src/actions/status.rs:158-164 | the invocation is appended to the log and no account changes |
| Deploy.CheckOwnerInstruction | onchain/bonsol/src/actions/deploy.rs:19-25 | succeeds exactly when the payload names an owner, returning it; otherwise `InvalidInstructionNoOwnerGiven` |
| Deploy.CheckAccountsDeployment | onchain/bonsol/src/actions/deploy.rs:28-52 | passes exactly when accounts 0 and 1 are writable signers, account 0 is the owner and is empty and system-owned, and account 3 is the system program; a failing deployer check gives `InvalidDeployerAccount`, then a failing payer check `InvalidPayerAccount`, then an owner mismatch `InvalidDeployerAccount`; `DeploymentAlreadyExists` exactly when the earlier guards pass and account 0 is not empty or not system-owned; `InvalidInstruction` when only the system program check fails; `InvalidDeploymentAccount` never occurs |
| Deploy.DeploySpec | onchain/bonsol/src/actions/deploy.rs:54-94 | missing payload gives `InvalidInstruction` and missing owner `InvalidInstructionNoOwnerGiven`; with an owner, fewer than five accounts panic and a failed guard returns its error; once the guards pass, an image id whose derived address is account 0 writes the payload unchanged to account 0 and succeeds, any other gives `InvalidDeploymentAccountPDA`; a missing image id is reported exactly when all guards passed; a failure changes nothing |
| Deploy.ProcessDeployV1 | onchain/bonsol/src/actions/deploy.rs:54-94 | the handler's result and ledger are those of `DeploySpec` |
| Execute.CheckExecutionAccounts | onchain/bonsol/src/actions/execute.rs:23-60 | passes exactly when requester and payer are writable signers, the execution account is writable, system-owned and empty, the deployment is program-owned, `accounts[5]` is the system program, and it is also this program or loader-owned; the first failing guard decides the error, in order `InvalidRequesterAccount`, `InvalidPayerAccount`, `InvalidExecutionAccount`, `InvalidDeploymentAccount`, `InvalidInstruction` for the system key and `InvalidCallbackAccount` for the `or` check, and no other error occurs; an empty list, or a list of four or five accounts whose first four pass, panics, and a full list never does; a system program account not owned by the loader always fails |
| Execute.ValidateEr | onchain/bonsol/src/actions/execute.rs:62-71 | accepts exactly a nonzero expiry together with a digest whenever input-hash checking is asked for; reports `MaxBlockHeightRequired` first, then `InputDigestRequired` |
| Execute.SetSize | onchain/bonsol/src/actions/execute.rs:95-111 | a set reference with no data byte, or whose first byte minus 6 (wrapping as a `u8`) is not an index into the extra accounts, panics; otherwise it counts the inputs of the input set stored there, and 0 for anything without inputs |
| Execute.SetItems | onchain/bonsol/src/actions/execute.rs:95-112 | summing the sizes of referenced input sets can fail only by a panic |
| Execute.ExpandedCountIsFold | onchain/bonsol/src/actions/execute.rs:88-114 | `inputs.len() - num_sets + sum` equals the reference count in which each inline input is one item and each set reference is its set's size |
| Execute.SetItemsPanicPersists | onchain/bonsol/src/actions/execute.rs:98-103 | a bad reference at any input makes the whole pipeline panic |
| Execute.InlineInputsCount | onchain/bonsol/src/actions/execute.rs:88-116 | with inline inputs only, the counted total is the number of inputs |
| Execute.RequiredInputs | onchain/bonsol/src/actions/execute.rs:144 | the required count is the deployment's number of inputs, or 1 when it declares none |
| Execute.CheckInputs | onchain/bonsol/src/actions/execute.rs:74-119 | absent inputs give `InvalidInputs`, a private-local input gives `InvalidInputType`, a bad set reference panics, a reference count other than the required one gives `InvalidInputs`, and the check passes exactly when the reference count equals the required count |
| Execute.ValidateInputs | onchain/bonsol/src/actions/execute.rs:74-119 | the counting loop returns exactly `CheckInputs` |
| Execute.ExecuteSpec | onchain/bonsol/src/actions/execute.rs:121-168 | account guards come before the payload and their error is the handler's; a missing payload gives `InvalidInstruction` and a missing id `InvalidExecutionId`; deployment data that is not a deployment gives `InvalidDeploymentAccount`; an input-count failure returns its error; then the request is written unchanged to `accounts[2]` and succeeds exactly when the id derives `accounts[3]`, else `InvalidExecutionAccount`; a failure changes nothing |
| Execute.AdmissionSkipsValidateEr | onchain/bonsol/src/actions/execute.rs:121-146 | a request that `validate_er` would refuse is treated exactly like a valid one |
| Execute.ProcessExecuteV1 | onchain/bonsol/src/actions/execute.rs:121-168 | the handler's result and ledger are those of `ExecuteSpec` |
| Claim.CheckAccountsClaim | onchain/bonsol/src/actions/claim.rs:23-34 | passes exactly when payer and claimer are writable signers, claim and execution accounts are writable and the execution account is program-owned; the first failing guard decides the error, in order `InvalidPayerAccount`, `InvalidClaimerAccount`, `InvalidClaimAccount`, `InvalidExecutionAccount`, `InvalidExecutionAccountOwner` |
| Claim.Stake | onchain/bonsol/src/actions/claim.rs:85 | the stake is half the tip rounded down: twice the stake is the tip or one less |
| Claim.ClaimTerms | onchain/bonsol/src/actions/claim.rs:59-92 | succeeds exactly when the id derives the execution account, the stored request has the payload's id, the claimer holds at least the tip and the claim address derives from the execution account, with stake and expiry taken from the request; in order, a missing id panics, a wrong execution address gives `InvalidExecutionAccount`, undecodable data `InvalidExecutionAccountData`, an id mismatch `InvalidExecutionId`, an underfunded claimer `InsufficientStake` whatever the expiry, and a claim address not derived from the execution account `InvalidClaimAccount` |
| Claim.BuildClaimSpec | onchain/bonsol/src/actions/claim.rs:46-108 | errors of the read-only checks pass through with nothing changed; the returned terms are theirs, marked as an existing claim or not; a new claim account is created program-owned and zero-filled, even when the request has expired, and that needs `accounts[5]`, else a panic; an existing program-owned one goes on unchanged as an existing claim, and one owned by another program gives `InvalidClaimAccount`; lamports are kept |
| Claim.BuildClaim | onchain/bonsol/src/actions/claim.rs:46-108 | the terms and ledger are those of `BuildClaimSpec` |
| Claim.ClaimEffects | onchain/bonsol/src/actions/claim.rs:131-166 | settling the claim keeps the accounts and the total lamports |
| Claim.LoadClaim | onchain/bonsol/src/actions/claim.rs:142-143 | a stored claim record loads as itself, freshly created space as the claim by the all-zero key at slot 0 with commitment 0, and anything else gives `InvalidClaimAccount` |
| Claim.ClaimSpec | onchain/bonsol/src/actions/claim.rs:110-167 | a short list panics; account guards come first, then a missing payload or id gives `InvalidInstruction`; every error of build_claim (among them `InvalidExecutionId`, `InsufficientStake` and `InvalidClaimAccount`) is the handler's, with nothing changed; success either closes an expired request or leaves the claimer's record (claimer, current slot, payload commitment) in the claim account; total lamports kept |
| Claim.ProcessClaimV1 | onchain/bonsol/src/actions/claim.rs:110-167 | the handler's result and ledger are those of `ClaimSpec` |
| Claim.ExpiredClaimClosesRequest | onchain/bonsol/src/actions/claim.rs:131-139 | on an expired request the claim succeeds, the execution account is closed with `ExecutionExpired` and its lamports go to the claimer; no stake moves and no record is written |
| Claim.FirstClaimEscrowsStake | onchain/bonsol/src/actions/claim.rs:157-166 | a first claim creates the claim account with the claimer's record and moves exactly the stake from the claimer into it |
| Claim.TakeoverAfterCommitment | onchain/bonsol/src/actions/claim.rs:140-153 | after the stored commitment a takeover succeeds; only the record changes, so the claim balance is unchanged and the previous holder receives nothing |
| Claim.ActiveClaimBlocksTakeover | onchain/bonsol/src/actions/claim.rs:144-156 | before the stored commitment a takeover fails with `ActiveClaimExists`, after the stake has already been refunded to the challenger |
| Status.CompleteReport | onchain/bonsol/src/actions/status.rs:58-73 | a report is complete exactly when the proof is 256 bytes and both digests, the input digest and the committed outputs are present; each field of the report is the status field of the same name |
| Status.VersionOf | onchain/bonsol/src/actions/status.rs:189-190 | the request's prover version as parsed, or the default when it does not parse |
| Status.VerifyWithProver | onchain/bonsol/src/actions/status.rs:180-207 | any version other than 1.0.1, an unparseable one falling back to the default, verifies nothing; 1.0.1 without an image id panics; 1.0.1 with an image id returns exactly the verifier's verdict or error on the report's digests, outputs, exit codes and proof |
| Status.BitNot | onchain/bonsol/src/actions/status.rs:126 | the bitwise not of a byte is zero exactly for 255 |
| Status.Allowed | onchain/bonsol/src/actions/status.rs:121-134 | a supplied extra account matches its stored entry exactly when the keys agree and the stored flag is not 255 for a writable account, not 1 for a read-only one |
| Status.Forwarded | onchain/bonsol/src/actions/status.rs:129-135 | extra accounts are passed on with their keys and writability and none as signer |
| Status.KeysOf | onchain/bonsol/src/actions/status.rs:152-153 | the account infos passed on are the extra accounts' keys, in order |
| Status.CallbackMetas | onchain/bonsol/src/actions/status.rs:111-138 | with no stored list the extra accounts are neither checked nor passed on; otherwise a length mismatch, a key mismatch, a writable account stored as 255 or a read-only one stored as 1 gives `InvalidCallbackExtraAccounts`; only the execution account signs |
| Status.BuildCallbackAccounts | onchain/bonsol/src/actions/status.rs:111-138 | the loop returns exactly `CallbackMetas` |
| Status.CallbackData | onchain/bonsol/src/actions/status.rs:140-149 | the callback data starts with the stored prefix; with forwarding and committed outputs the input digest and outputs follow it, otherwise it is the prefix alone |
| Status.Callback | onchain/bonsol/src/actions/status.rs:88-165 | no callback when `accounts[3]` is this program or no prefix is stored; a mismatched callback program gives `InvalidCallbackProgram`; for the stored program, a failed extra-account check gives `InvalidCallbackExtraAccounts` and a passed one makes exactly one callback with the account list of `CallbackMetas`; the callback goes to `accounts[1]` with the built payload, signed with the requester's execution seeds and the bump found |
| Status.Settle | onchain/bonsol/src/actions/status.rs:59-177 | settling a read request keeps the accounts and the total lamports |
| Status.StatusSpec | onchain/bonsol/src/actions/status.rs:36-178 | missing payload gives `InvalidInstruction` with nothing changed; expiry is checked before any proof handling and a request is live at its max block height; an incomplete report closes with `ProvingError`; a verifier error (among them the panic for version 1.0.1 without an image id) aborts with that error and nothing changed; a false verdict closes with `VerifyError`; after a true verdict, fewer than four accounts panic, a failed callback check returns its error with no payout and no invocation, and otherwise the callback is made and the handler succeeds exactly when the execution account covers the tip; every success closes the execution account |
| Status.ProcessStatusV1 | onchain/bonsol/src/actions/status.rs:36-178 | the handler's result, ledger and invocations are those of `StatusSpec` |
| Status.RequestNotRead | onchain/bonsol/src/actions/status.rs:42-57 | before settlement, a missing execution id or account list panics; an id whose derived address is not `accounts[0]`, and request data that does not decode, both give `InvalidExecutionAccount`; none of them changes an account or makes a call |
| Status.SettlementPaysProver | onchain/bonsol/src/actions/status.rs:167-168 | a verified settlement moves exactly the tip to `accounts[2]`, closes the execution account to the requester with `Success`, and changes nothing else |
| Status.InputDigestIgnored | onchain/bonsol/src/actions/status.rs:79-82 | the stored input-hash flag and digest change neither the result nor the callback |
| Status.SettleIgnoresInputHash | onchain/bonsol/src/actions/status.rs:79-84 | settlement after the request is read does not depend on the stored input-hash settings |
| Status.WritableFlagQuirk | onchain/bonsol/src/actions/status.rs:125-129 | a writable extra account passes for every stored flag except 255 |
| Status.CallbackPayload | onchain/bonsol/src/actions/status.rs:140-149 | with forwarding the payload is prefix, input digest and committed outputs, otherwise the prefix alone |
| Processor.HandlerSpec | onchain/bonsol/src/actions/claim.rs:110-113 | each handler's effects keep the account set and the total lamports |
| Processor.Committed | onchain/bonsol/src/actions/claim.rs:141-156 | a failed instruction leaves the accounts as they were, and no instruction changes the total lamports |
| Processor.RunInstruction | onchain/bonsol/src/actions/claim.rs:141-156 | the transaction returns the handler's result, commits its effects and invocations on success, and restores both on failure |
| Processor.ActiveClaimRollsBack | onchain/bonsol/src/actions/claim.rs:144-156 | a takeover refused with `ActiveClaimExists` leaves every account as it was |
| Processor.DeployOnce | onchain/bonsol/src/actions/deploy.rs:40-45 | once an image is deployed, no later deploy into the same account succeeds |
| Processor.SettleOnce | onchain/bonsol/src/actions/status.rs:55-57 | once a request is settled, no later status for the same execution account succeeds |

## Left out

- Proof mathematics (output digest, proof inputs, RISC Zero verification) is the uninterpreted `verifyRisc0`. Its error covers a failure while preparing the proof inputs or while verifying.
- FlatBuffers decoding is not modelled. Payloads are decoded records whose optional fields are present or absent. A stored record reads back unchanged. Data that is not the expected record fails to decode.
- Address derivation, seed construction and image-id hashing are the uninterpreted `findProgramAddress` and `imgIdHash`. The bump is kept only as part of a callback's signing seeds.
- The helpers in the program's `utilities` and `assertions` modules are not part of this model; their assumed behaviours are listed above.
- Rent is not modelled: creating or saving an account moves no lamports, and a creation cannot fail.
- Borrow failures (`CannotBorrowData`) are not modelled.
- `Clock::get` is the slot parameter; `msg!` logging is dropped.
- `invoke_signed` is recorded in the ledger's invocation log. Its result is only logged by the program, so the model gives it no result. What the callee does is not modelled.
- Freshly created claim space is assumed to load as the all-zero record (zero claimer, slot 0, commitment 0).
- Integers are unbounded: `u64` lamports, tips and slots cannot overflow in the model. The `u8` subtraction `index - 6` wraps modulo 256, as a release build does; an overflow-checked build would panic for first bytes below 6 instead.
- Account keys are byte strings of any length, and `sol_memcmp` over 32 bytes is key equality.
