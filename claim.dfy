/**
 * Claims: a prover takes the exclusive right to work an execution request by
 * escrowing half its tip in the claim account, may take over a claim whose
 * block commitment has passed, and closes a request that has expired.
 *
 * Accounts: 0 execution account, 1 requester, 2 claim account,
 * 3 claimer, 4 payer, 5 system program.
 */
module Claim {
  import opened Wrappers
  import opened Schema
  import opened Errors
  import opened Accounts
  import opened Runtime

  /** The account guards, in order; all run before the payload is read. */
  function CheckAccountsClaim(env: Env, m: AccountMap, accounts: seq<AccountMeta>): (r: Result<(), ProgramError>)
    requires |accounts| >= 5 && Present(m, accounts)
    ensures r.Ok? <==>
      && accounts[4].isSigner && accounts[4].isWritable
      && accounts[3].isSigner && accounts[3].isWritable
      && accounts[2].isWritable && accounts[0].isWritable
      && m[accounts[0].key].owner == env.programId
    ensures !(accounts[4].isSigner && accounts[4].isWritable) ==> r == Err(Channel(InvalidPayerAccount))
    ensures accounts[4].isSigner && accounts[4].isWritable && !(accounts[3].isSigner && accounts[3].isWritable) ==>
      r == Err(Channel(InvalidClaimerAccount))
    ensures (accounts[4].isSigner && accounts[4].isWritable && accounts[3].isSigner && accounts[3].isWritable
             && !accounts[2].isWritable) ==> r == Err(Channel(InvalidClaimAccount))
    ensures (accounts[4].isSigner && accounts[4].isWritable && accounts[3].isSigner && accounts[3].isWritable
             && accounts[2].isWritable && !accounts[0].isWritable) ==> r == Err(Channel(InvalidExecutionAccount))
    ensures (accounts[4].isSigner && accounts[4].isWritable && accounts[3].isSigner && accounts[3].isWritable
             && accounts[2].isWritable && accounts[0].isWritable
             && m[accounts[0].key].owner != env.programId) ==> r == Err(Channel(InvalidExecutionAccountOwner))
    ensures r.Err? ==> r.error.Channel? && r.error.code in {InvalidPayerAccount, InvalidClaimerAccount, InvalidClaimAccount,
                                                            InvalidExecutionAccount, InvalidExecutionAccountOwner}
  {
    var execution, claim, claimer, payer := accounts[0], accounts[2], accounts[3], accounts[4];
    :- CheckWritableSigner(payer, InvalidPayerAccount);
    :- CheckWritableSigner(claimer, InvalidClaimerAccount);
    :- CheckWriteable(claim, InvalidClaimAccount);
    :- CheckWriteable(execution, InvalidExecutionAccount);
    :- CheckOwner(m, execution, env.programId, InvalidExecutionAccountOwner);
    Ok(())
  }

  /** The terms build_claim settles on; `existingClaim` and `expired` say which branch the claim takes. */
  datatype ClaimMeta = ClaimMeta(executionId: string, blockCommitment: nat, existingClaim: bool, stake: nat, expired: bool)

  /** The claim terms and the accounts as build_claim leaves them. */
  datatype Built = Built(result: Result<ClaimMeta, ProgramError>, accounts: AccountMap)

  /** The stake a claimer escrows: half the tip, rounded down. */
  function Stake(tip: nat): (stake: nat)
    ensures 2 * stake <= tip <= 2 * stake + 1
  {
    tip / 2
  }

  /** The read-only checks of build_claim and the terms they produce. */
  function ClaimTerms(env: Env, m: AccountMap, accounts: seq<AccountMeta>, cl: ClaimV1, currentBlock: nat): (r: Result<ClaimMeta, ProgramError>)
    requires |accounts| >= 5 && Present(m, accounts)
    ensures r.Ok? ==>
      && cl.executionId.Some?
      && m[accounts[0].key].data.ExecutionRequest?
      && m[accounts[0].key].data.request.executionId == cl.executionId
      && m[accounts[3].key].lamports >= m[accounts[0].key].data.request.tip
      && r.value == ClaimMeta(cl.executionId.value, cl.blockCommitment, false, Stake(m[accounts[0].key].data.request.tip),
                              m[accounts[0].key].data.request.maxBlockHeight < currentBlock)
    ensures r.Ok? <==>
      && cl.executionId.Some?
      && env.findProgramAddress(ExecutionSeeds(accounts[1].key, cl.executionId.value)).0 == accounts[0].key
      && m[accounts[0].key].data.ExecutionRequest?
      && m[accounts[0].key].data.request.executionId == cl.executionId
      && m[accounts[3].key].lamports >= m[accounts[0].key].data.request.tip
      && env.findProgramAddress(ClaimSeeds(accounts[0].key)).0 == accounts[2].key
    ensures cl.executionId.None? ==> r == Err(Panic)
    ensures cl.executionId.Some?
            && env.findProgramAddress(ExecutionSeeds(accounts[1].key, cl.executionId.value)).0 != accounts[0].key
            ==> r == Err(Channel(InvalidExecutionAccount))
    ensures cl.executionId.Some?
            && env.findProgramAddress(ExecutionSeeds(accounts[1].key, cl.executionId.value)).0 == accounts[0].key
            && !m[accounts[0].key].data.ExecutionRequest?
            ==> r == Err(Channel(InvalidExecutionAccountData))
    // the stored request must carry the claimed execution id
    ensures cl.executionId.Some?
            && env.findProgramAddress(ExecutionSeeds(accounts[1].key, cl.executionId.value)).0 == accounts[0].key
            && m[accounts[0].key].data.ExecutionRequest?
            && m[accounts[0].key].data.request.executionId != cl.executionId
            ==> r == Err(Channel(InvalidExecutionId))
    // the claim account must be the address derived from the execution account
    ensures cl.executionId.Some?
            && env.findProgramAddress(ExecutionSeeds(accounts[1].key, cl.executionId.value)).0 == accounts[0].key
            && m[accounts[0].key].data.ExecutionRequest?
            && m[accounts[0].key].data.request.executionId == cl.executionId
            && m[accounts[3].key].lamports >= m[accounts[0].key].data.request.tip
            && env.findProgramAddress(ClaimSeeds(accounts[0].key)).0 != accounts[2].key
            ==> r == Err(Channel(InvalidClaimAccount))
    // the solvency check comes before, and regardless of, expiry
    ensures cl.executionId.Some?
            && env.findProgramAddress(ExecutionSeeds(accounts[1].key, cl.executionId.value)).0 == accounts[0].key
            && m[accounts[0].key].data.ExecutionRequest?
            && m[accounts[0].key].data.request.executionId == cl.executionId
            && m[accounts[3].key].lamports < m[accounts[0].key].data.request.tip
            ==> r == Err(Channel(InsufficientStake))
  {
    if cl.executionId.None? then Err(Panic)
    else
      var eid := cl.executionId.value;
      var executionBump :- CheckPda(env, ExecutionSeeds(accounts[1].key, eid), accounts[0].key, InvalidExecutionAccount);
      match m[accounts[0].key].data
      case ExecutionRequest(er) =>
        if er.executionId != cl.executionId then Err(Channel(InvalidExecutionId))
        else if m[accounts[3].key].lamports < er.tip then Err(Channel(InsufficientStake))
        else
          var claimBump :- CheckPda(env, ClaimSeeds(accounts[0].key), accounts[2].key, InvalidClaimAccount);
          Ok(ClaimMeta(eid, cl.blockCommitment, false, Stake(er.tip), er.maxBlockHeight < currentBlock))
      case _ => Err(Channel(InvalidExecutionAccountData))
  }

  /** build_claim as a function: the terms, after creating the claim account if it does not exist yet. */
  function BuildClaimSpec(env: Env, m: AccountMap, accounts: seq<AccountMeta>, cl: ClaimV1, currentBlock: nat): (b: Built)
    requires |accounts| >= 5 && Present(m, accounts)
    ensures b.accounts.Keys == m.Keys && Total(b.accounts) == Total(m)
    ensures b.result.Err? ==> b.accounts == m
    // a new claim account is created, program-owned and zero-filled, whatever the expiry
    ensures b.result.Ok? && !b.result.value.existingClaim ==>
      && m[accounts[2].key].data.Empty? && m[accounts[2].key].owner == env.systemProgram
      && b.accounts == Written(m, accounts[2].key, env.programId, Zeroed)
    ensures b.result.Ok? && b.result.value.existingClaim ==>
      && !(m[accounts[2].key].data.Empty? && m[accounts[2].key].owner == env.systemProgram)
      && m[accounts[2].key].owner == env.programId
      && b.accounts == m
    // the terms are those of the read-only checks, and their errors pass through unchanged
    ensures ClaimTerms(env, m, accounts, cl, currentBlock).Err? ==>
      b == Built(Err(ClaimTerms(env, m, accounts, cl, currentBlock).error), m)
    ensures b.result.Ok? ==>
      && ClaimTerms(env, m, accounts, cl, currentBlock).Ok?
      && b.result.value == ClaimTerms(env, m, accounts, cl, currentBlock).value.(existingClaim := b.result.value.existingClaim)
    // creating the claim account needs the system program at accounts[5]
    ensures ClaimTerms(env, m, accounts, cl, currentBlock).Ok?
            && m[accounts[2].key].data.Empty? && m[accounts[2].key].owner == env.systemProgram
            ==> (b.result.Ok? <==> |accounts| >= 6) && (b.result.Err? ==> b.result.error == Panic)
    // a claim account that exists and belongs to this program goes on as an existing claim, unchanged
    ensures ClaimTerms(env, m, accounts, cl, currentBlock).Ok?
            && !(m[accounts[2].key].data.Empty? && m[accounts[2].key].owner == env.systemProgram)
            && m[accounts[2].key].owner == env.programId
            ==> b == Built(Ok(ClaimTerms(env, m, accounts, cl, currentBlock).value.(existingClaim := true)), m)
    // a claim account that exists but belongs to another program is refused
    ensures ClaimTerms(env, m, accounts, cl, currentBlock).Ok?
            && !(m[accounts[2].key].data.Empty? && m[accounts[2].key].owner == env.systemProgram)
            && m[accounts[2].key].owner != env.programId
            ==> b.result == Err(Channel(InvalidClaimAccount))
  {
    match ClaimTerms(env, m, accounts, cl, currentBlock)
    case Err(e) => Built(Err(e), m)
    case Ok(meta) =>
      var claim := m[accounts[2].key];
      if claim.data.Empty? && claim.owner == env.systemProgram then
        if |accounts| < 6 then Built(Err(Panic), m)
        else Built(Ok(meta), Written(m, accounts[2].key, env.programId, Zeroed))
      else if claim.owner != env.programId then Built(Err(Channel(InvalidClaimAccount)), m)
      else Built(Ok(meta.(existingClaim := true)), m)
  }

  /** build_claim. */
  method BuildClaim(ledger: Ledger, env: Env, accounts: seq<AccountMeta>, cl: ClaimV1, currentBlock: nat)
    returns (r: Result<ClaimMeta, ProgramError>)
    requires |accounts| >= 5 && Present(ledger.accounts, accounts)
    modifies ledger
    ensures Built(r, ledger.accounts) == BuildClaimSpec(env, old(ledger.accounts), accounts, cl, currentBlock)
    ensures ledger.subCalls == old(ledger.subCalls)
  {
    if cl.executionId.None? {
      return Err(Panic);
    }
    var eid := cl.executionId.value;
    var claim := ClaimMeta(eid, cl.blockCommitment, false, 0, false);
    var executionBump :- CheckPda(env, ExecutionSeeds(accounts[1].key, eid), accounts[0].key, InvalidExecutionAccount);
    var data := ledger.accounts[accounts[0].key].data;
    if !data.ExecutionRequest? {
      return Err(Channel(InvalidExecutionAccountData));
    }
    var er := data.request;
    if er.executionId != cl.executionId {
      return Err(Channel(InvalidExecutionId));
    }
    var tip := er.tip;
    if ledger.accounts[accounts[3].key].lamports < tip {
      return Err(Channel(InsufficientStake));
    }
    if er.maxBlockHeight < currentBlock {
      claim := claim.(expired := true);
    }
    claim := claim.(stake := Stake(tip));
    var claimBump :- CheckPda(env, ClaimSeeds(accounts[0].key), accounts[2].key, InvalidClaimAccount);
    var claimAccount := ledger.accounts[accounts[2].key];
    if claimAccount.data.Empty? && claimAccount.owner == env.systemProgram {
      if |accounts| < 6 {
        return Err(Panic);
      }
      ledger.CreateProgramAccount(accounts[2].key, env.programId);
    } else {
      if claimAccount.owner != env.programId {
        return Err(Channel(InvalidClaimAccount));
      }
      claim := claim.(existingClaim := true);
    }
    return Ok(claim);
  }

  /** `n` zero bytes. */
  function Zeros(n: nat): (z: Bytes)
    ensures |z| == n
    ensures forall i | 0 <= i < n :: z[i] == 0
  {
    if n == 0 then [] else [0] + Zeros(n - 1)
  }

  /** load_claim: a stored record, or the all-zero record of freshly allocated space. */
  function LoadClaim(data: Data): (r: Result<ClaimStateV1, ProgramError>)
    ensures data.ClaimState? ==> r == Ok(data.claim)
    // freshly allocated space reads as a claim by the all-zero key at slot 0 with commitment 0
    ensures data == Zeroed ==>
      && r.Ok? && r.value.blockCommitment == 0 && r.value.claimedAt == 0
      && |r.value.claimer| == 32 && forall i | 0 <= i < 32 :: r.value.claimer[i] == 0
    ensures r.Err? <==> !data.ClaimState? && data != Zeroed
    ensures r.Err? ==> r.error == Channel(InvalidClaimAccount)
  {
    match data
    case ClaimState(c) => Ok(c)
    case Zeroed => Ok(ClaimStateV1(Zeros(32), 0, 0))
    case _ => Err(Channel(InvalidClaimAccount))
  }

  /** What process_claim_v1 does once build_claim has succeeded. */
  function ClaimEffects(m: AccountMap, accounts: seq<AccountMeta>, meta: ClaimMeta, currentBlock: nat): (s: Step)
    requires |accounts| >= 5 && Present(m, accounts)
    ensures s.accounts.Keys == m.Keys && Total(s.accounts) == Total(m)
  {
    var execution, claim, claimer := accounts[0].key, accounts[2].key, accounts[3].key;
    var record := ClaimStateV1(claimer, currentBlock, meta.blockCommitment);
    if meta.expired then
      Step(Ok(()), CloseAccount(m, execution, claimer, ErrorCode(ExecutionExpired)))
    else if meta.existingClaim then
      match LoadClaim(m[claim].data)
      case Err(e) => Step(Err(e), m)
      case Ok(current) =>
        var refund := Transfer(m, claim, claimer, meta.stake);
        if refund.result.Err? then refund
        else if currentBlock > current.blockCommitment then
          var saved := Written(refund.accounts, claim, refund.accounts[claim].owner, ClaimState(record));
          Transfer(saved, claimer, claim, meta.stake)
        else Step(Err(Channel(ActiveClaimExists)), refund.accounts)
    else
      var escrow := Transfer(m, claimer, claim, meta.stake);
      if escrow.result.Err? then escrow
      else Step(Ok(()), Written(escrow.accounts, claim, escrow.accounts[claim].owner, ClaimState(record)))
  }

  /** process_claim_v1 as a function of the accounts before it runs, including effects an error leaves behind. */
  function ClaimSpec(env: Env, m: AccountMap, accounts: seq<AccountMeta>, payload: Option<ClaimV1>, currentBlock: nat): (s: Step)
    requires Present(m, accounts)
    ensures s.accounts.Keys == m.Keys && Total(s.accounts) == Total(m)
    ensures |accounts| < 5 ==> s == Step(Err(Panic), m)
    ensures |accounts| >= 5 && CheckAccountsClaim(env, m, accounts).Err? ==>
      s == Step(Err(CheckAccountsClaim(env, m, accounts).error), m)
    ensures |accounts| >= 5 && CheckAccountsClaim(env, m, accounts).Ok? && (payload.None? || payload.value.executionId.None?) ==>
      s == Step(Err(Channel(InvalidInstruction)), m)
    // build_claim's errors, among them InvalidExecutionId and InsufficientStake, are the handler's, with nothing changed
    ensures |accounts| >= 5 && CheckAccountsClaim(env, m, accounts).Ok? && payload.Some? && payload.value.executionId.Some?
            && BuildClaimSpec(env, m, accounts, payload.value, currentBlock).result.Err? ==>
      s == Step(Err(BuildClaimSpec(env, m, accounts, payload.value, currentBlock).result.error), m)
    // a successful claim either closes an expired request or leaves the claimer's record in the claim account
    ensures s.result.Ok? ==>
      && |accounts| >= 5 && payload.Some? && payload.value.executionId.Some?
      && m[accounts[0].key].data.ExecutionRequest?
      && m[accounts[3].key].lamports >= m[accounts[0].key].data.request.tip
      && (if m[accounts[0].key].data.request.maxBlockHeight < currentBlock
          then s.accounts[accounts[0].key].data == Closed(ErrorCode(ExecutionExpired))
          else s.accounts[accounts[2].key].data == ClaimState(ClaimStateV1(accounts[3].key, currentBlock, payload.value.blockCommitment)))
  {
    if |accounts| < 5 then Step(Err(Panic), m)
    else
      match CheckAccountsClaim(env, m, accounts)
      case Err(e) => Step(Err(e), m)
      case Ok(_) =>
        if payload.None? || payload.value.executionId.None? then Step(Err(Channel(InvalidInstruction)), m)
        else
          var built := BuildClaimSpec(env, m, accounts, payload.value, currentBlock);
          match built.result
          case Err(e) => Step(Err(e), built.accounts)
          case Ok(meta) => ClaimEffects(built.accounts, accounts, meta, currentBlock)
  }

  /** process_claim_v1. */
  method ProcessClaimV1(ledger: Ledger, env: Env, accounts: seq<AccountMeta>, payload: Option<ClaimV1>, currentBlock: nat)
    returns (r: Result<(), ProgramError>)
    requires Present(ledger.accounts, accounts)
    modifies ledger
    ensures Step(r, ledger.accounts) == ClaimSpec(env, old(ledger.accounts), accounts, payload, currentBlock)
    ensures ledger.subCalls == old(ledger.subCalls)
  {
    if |accounts| < 5 {
      return Err(Panic);
    }
    var guarded :- CheckAccountsClaim(env, ledger.accounts, accounts);
    if payload.None? {
      return Err(Channel(InvalidInstruction));
    }
    var cl := payload.value;
    if cl.executionId.None? {
      return Err(Channel(InvalidInstruction));
    }
    var claimMeta :- BuildClaim(ledger, env, accounts, cl, currentBlock);
    var execution, claim, claimer := accounts[0].key, accounts[2].key, accounts[3].key;
    if claimMeta.expired {
      ledger.CleanupExecutionAccount(execution, claimer, ErrorCode(ExecutionExpired));
      return Ok(());
    }
    var record := ClaimStateV1(claimer, currentBlock, claimMeta.blockCommitment);
    if claimMeta.existingClaim {
      var current :- LoadClaim(ledger.accounts[claim].data);
      var refunded :- ledger.TransferLamports(claim, claimer, claimMeta.stake);
      if currentBlock > current.blockCommitment {
        ledger.SaveClaim(claim, record);
        r := ledger.TransferLamports(claimer, claim, claimMeta.stake);
      } else {
        r := Err(Channel(ActiveClaimExists));
      }
    } else {
      var escrowed :- ledger.TransferLamports(claimer, claim, claimMeta.stake);
      ledger.SaveClaim(claim, record);
      r := Ok(());
    }
  }

  /** Every check before the branch on expiry and on the claim account's state passes. */
  predicate Admitted(env: Env, m: AccountMap, accounts: seq<AccountMeta>, payload: Option<ClaimV1>, currentBlock: nat)
    requires Present(m, accounts)
  {
    && |accounts| >= 5
    && CheckAccountsClaim(env, m, accounts).Ok?
    && payload.Some? && payload.value.executionId.Some?
    && ClaimTerms(env, m, accounts, payload.value, currentBlock).Ok?
  }

  /** The execution, claim and claimer accounts are three different accounts. */
  predicate Distinct(accounts: seq<AccountMeta>)
    requires |accounts| >= 5
  {
    accounts[0].key != accounts[2].key && accounts[0].key != accounts[3].key && accounts[2].key != accounts[3].key
  }

  /**
   * A claim on an expired request succeeds without escrowing anything: the
   * execution account is closed with ExecutionExpired and its lamports go to
   * the claimer; the claim account is at most created, never given a record.
   */
  lemma ExpiredClaimClosesRequest(env: Env, m: AccountMap, accounts: seq<AccountMeta>, payload: Option<ClaimV1>, currentBlock: nat)
    requires Present(m, accounts) && Admitted(env, m, accounts, payload, currentBlock) && Distinct(accounts)
    requires m[accounts[0].key].data.request.maxBlockHeight < currentBlock
    requires |accounts| >= 6
    requires (m[accounts[2].key].data.Empty? && m[accounts[2].key].owner == env.systemProgram) || m[accounts[2].key].owner == env.programId
    ensures var s := ClaimSpec(env, m, accounts, payload, currentBlock);
      && s.result == Ok(())
      && s.accounts[accounts[0].key].data == Closed(ErrorCode(ExecutionExpired))
      && s.accounts[accounts[0].key].lamports == 0
      && s.accounts[accounts[3].key].lamports == m[accounts[3].key].lamports + m[accounts[0].key].lamports
      && s.accounts[accounts[2].key].lamports == m[accounts[2].key].lamports
      && (s.accounts[accounts[2].key].data == m[accounts[2].key].data || s.accounts[accounts[2].key].data == Zeroed)
  {
  }

  /**
   * A first claim on a live request creates the claim account, records the
   * claimer, the current slot and the requested commitment, and moves half
   * the tip from the claimer into it.
   */
  lemma FirstClaimEscrowsStake(env: Env, m: AccountMap, accounts: seq<AccountMeta>, payload: Option<ClaimV1>, currentBlock: nat)
    requires Present(m, accounts) && Admitted(env, m, accounts, payload, currentBlock) && Distinct(accounts) && |accounts| >= 6
    requires currentBlock <= m[accounts[0].key].data.request.maxBlockHeight
    requires m[accounts[2].key].data.Empty? && m[accounts[2].key].owner == env.systemProgram
    ensures var s := ClaimSpec(env, m, accounts, payload, currentBlock);
      var stake := Stake(m[accounts[0].key].data.request.tip);
      && s.result == Ok(())
      && s.accounts[accounts[2].key] == Account(m[accounts[2].key].lamports + stake, env.programId,
           ClaimState(ClaimStateV1(accounts[3].key, currentBlock, payload.value.blockCommitment)))
      && s.accounts[accounts[3].key].lamports + stake == m[accounts[3].key].lamports
      && forall k | k in m && k != accounts[2].key && k != accounts[3].key :: s.accounts[k] == m[k]
  {
    var meta := ClaimTerms(env, m, accounts, payload.value, currentBlock).value;
    var created := Written(m, accounts[2].key, env.programId, Zeroed);
    assert BuildClaimSpec(env, m, accounts, payload.value, currentBlock) == Built(Ok(meta), created);
    assert created[accounts[3].key].lamports >= meta.stake;
  }

  /**
   * Once the current claim's block commitment has passed, another prover
   * takes it over: the stake comes back to the new claimer and goes straight
   * back in, so only the record changes and the previous holder receives
   * nothing.
   */
  lemma TakeoverAfterCommitment(env: Env, m: AccountMap, accounts: seq<AccountMeta>, payload: Option<ClaimV1>, currentBlock: nat)
    requires Present(m, accounts) && Admitted(env, m, accounts, payload, currentBlock) && Distinct(accounts)
    requires currentBlock <= m[accounts[0].key].data.request.maxBlockHeight
    requires m[accounts[2].key].owner == env.programId && m[accounts[2].key].data.ClaimState?
    requires currentBlock > m[accounts[2].key].data.claim.blockCommitment
    requires m[accounts[2].key].lamports >= Stake(m[accounts[0].key].data.request.tip)
    ensures var s := ClaimSpec(env, m, accounts, payload, currentBlock);
      && s.result == Ok(())
      && s.accounts == m[accounts[2].key := m[accounts[2].key].(data :=
           ClaimState(ClaimStateV1(accounts[3].key, currentBlock, payload.value.blockCommitment)))]
  {
    var meta := ClaimTerms(env, m, accounts, payload.value, currentBlock).value;
    assert BuildClaimSpec(env, m, accounts, payload.value, currentBlock) == Built(Ok(meta.(existingClaim := true)), m);
    var claim, claimer := accounts[2].key, accounts[3].key;
    var record := ClaimState(ClaimStateV1(claimer, currentBlock, payload.value.blockCommitment));
    var refunded := Moved(m, claim, claimer, meta.stake);
    var saved := Written(refunded, claim, env.programId, record);
    var settled := Moved(saved, claimer, claim, meta.stake);
    var expected := m[claim := m[claim].(data := record)];
    assert ClaimEffects(m, accounts, meta.(existingClaim := true), currentBlock) == Step(Ok(()), settled);
    assert settled.Keys == expected.Keys;
    forall k | k in settled
      ensures settled[k] == expected[k]
    {
    }
    assert settled == expected;
  }

  /**
   * While the current claim's commitment has not passed, a takeover fails
   * with ActiveClaimExists; as written, the refund of the stake to the
   * challenger has already happened when the error is returned, and only the
   * runtime's rollback of the failed transaction undoes it.
   */
  lemma ActiveClaimBlocksTakeover(env: Env, m: AccountMap, accounts: seq<AccountMeta>, payload: Option<ClaimV1>, currentBlock: nat)
    requires Present(m, accounts) && Admitted(env, m, accounts, payload, currentBlock) && Distinct(accounts)
    requires currentBlock <= m[accounts[0].key].data.request.maxBlockHeight
    requires m[accounts[2].key].owner == env.programId && m[accounts[2].key].data.ClaimState?
    requires currentBlock <= m[accounts[2].key].data.claim.blockCommitment
    requires m[accounts[2].key].lamports >= Stake(m[accounts[0].key].data.request.tip)
    ensures var s := ClaimSpec(env, m, accounts, payload, currentBlock);
      && s.result == Err(Channel(ActiveClaimExists))
      && s.accounts == Moved(m, accounts[2].key, accounts[3].key, Stake(m[accounts[0].key].data.request.tip))
  {
    var meta := ClaimTerms(env, m, accounts, payload.value, currentBlock).value;
    assert BuildClaimSpec(env, m, accounts, payload.value, currentBlock) == Built(Ok(meta.(existingClaim := true)), m);
    assert ClaimEffects(m, accounts, meta.(existingClaim := true), currentBlock)
        == Step(Err(Channel(ActiveClaimExists)), Moved(m, accounts[2].key, accounts[3].key, meta.stake));
  }
}
