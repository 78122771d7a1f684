/**
 * Settlement: a prover submits the status of an execution. An expired request
 * is refused; an incomplete report, or one the verifier rejects, closes the
 * execution account; a verified one may call back into the requester's
 * program, pays the tip and closes the account with Success.
 *
 * Accounts: 0 requester, 1 execution account, 2 prover, 3 callback program,
 * 4 and on the callback's extra accounts.
 */
module Status {
  import opened Wrappers
  import opened Schema
  import opened Errors
  import opened Accounts
  import opened Runtime

  /** The parts of a status needed for verification, all present. */
  datatype Report = Report(proof: Bytes, executionDigest: Bytes, assumptionDigest: Bytes, inputDigest: Bytes, committedOutputs: Bytes)

  /** The report, if the proof is exactly 256 bytes and every digest and the committed outputs are present. */
  function CompleteReport(st: StatusV1): (r: Option<Report>)
    ensures r.Some? <==>
      && st.proof.Some? && |st.proof.value| == 256
      && st.executionDigest.Some? && st.assumptionDigest.Some? && st.inputDigest.Some? && st.committedOutputs.Some?
    ensures r.Some? ==> r.value.proof == st.proof.value && r.value.committedOutputs == st.committedOutputs.value
                        && r.value.inputDigest == st.inputDigest.value
                        && r.value.executionDigest == st.executionDigest.value
                        && r.value.assumptionDigest == st.assumptionDigest.value
  {
    var proof := if st.proof.Some? && |st.proof.value| == 256 then st.proof else None;
    if proof.Some? && st.executionDigest.Some? && st.assumptionDigest.Some? && st.inputDigest.Some? && st.committedOutputs.Some?
    then Some(Report(proof.value, st.executionDigest.value, st.assumptionDigest.value, st.inputDigest.value, st.committedOutputs.value))
    else None
  }

  /** The prover version a request asks for; one that does not parse falls back to the default. */
  function VersionOf(env: Env, er: ExecutionRequestV1): (v: ProverVersion)
    ensures env.parseProverVersion(er.proverVersion).Some? ==> v == env.parseProverVersion(er.proverVersion).value
    ensures env.parseProverVersion(er.proverVersion).None? ==> v == env.defaultProverVersion
  {
    env.parseProverVersion(er.proverVersion).GetOr(env.defaultProverVersion)
  }

  /** verify_with_prover: only version 1.0.1 has a verifier; any other version verifies nothing. */
  function VerifyWithProver(env: Env, er: ExecutionRequestV1, st: StatusV1, report: Report): (r: Result<bool, ProgramError>)
    ensures VersionOf(env, er) != Version1_0_1 ==> r == Ok(false)
    ensures VersionOf(env, er) == Version1_0_1 && er.imageId.None? ==> r == Err(Panic)
    ensures r == Ok(true) ==>
      && VersionOf(env, er) == Version1_0_1 && er.imageId.Some?
      && env.verifyRisc0(Risc0Query(er.imageId.value, report.executionDigest, report.inputDigest, report.committedOutputs,
                                    report.assumptionDigest, st.exitCodeSystem, st.exitCodeUser, report.proof)) == Ok(true)
    // version 1.0.1 with an image id returns the verifier's verdict, or its error, unchanged
    ensures VersionOf(env, er) == Version1_0_1 && er.imageId.Some? ==>
      r == env.verifyRisc0(Risc0Query(er.imageId.value, report.executionDigest, report.inputDigest, report.committedOutputs,
                                       report.assumptionDigest, st.exitCodeSystem, st.exitCodeUser, report.proof))
  {
    match VersionOf(env, er)
    case Version1_0_1 =>
      if er.imageId.None? then Err(Panic)
      else
        env.verifyRisc0(Risc0Query(er.imageId.value, report.executionDigest, report.inputDigest, report.committedOutputs,
                                   report.assumptionDigest, st.exitCodeSystem, st.exitCodeUser, report.proof))
    case _ => Ok(false)
  }

  /** Bitwise not of a byte. */
  function BitNot(b: Byte): (r: Byte)
    ensures r == 0 <==> b == 255
  {
    255 - b
  }

  /**
   * A supplied extra account matches its stored entry: same key; a writable
   * one is refused only when the bitwise not of the stored flag is zero, a
   * read-only one only when the stored flag is 1.
   */
  predicate Allowed(a: AccountMeta, stored: CallbackAccount)
    ensures a.isWritable ==> (Allowed(a, stored) <==> a.key == stored.pubkey && stored.writable != 255)
    ensures !a.isWritable ==> (Allowed(a, stored) <==> a.key == stored.pubkey && stored.writable != 1)
  {
    && a.key == stored.pubkey
    && (if a.isWritable then BitNot(stored.writable) != 0 else stored.writable != 1)
  }

  /** The extra accounts as passed to the callback: same keys and writability, none a signer. */
  function Forwarded(extra: seq<AccountMeta>): (r: seq<AccountMeta>)
    ensures |r| == |extra|
    ensures forall i | 0 <= i < |extra| :: r[i] == AccountMeta(extra[i].key, false, extra[i].isWritable)
  {
    if |extra| == 0 then []
    else Forwarded(extra[..|extra| - 1]) + [AccountMeta(extra[|extra| - 1].key, false, extra[|extra| - 1].isWritable)]
  }

  /** The addresses of an account list. */
  function KeysOf(metas: seq<AccountMeta>): (r: seq<Pubkey>)
    ensures |r| == |metas|
    ensures forall i | 0 <= i < |metas| :: r[i] == metas[i].key
  {
    if |metas| == 0 then [] else [metas[0].key] + KeysOf(metas[1..])
  }

  /** The callback's account list: the execution account as a read-only signer, then the checked extra accounts. */
  function CallbackMetas(execution: Pubkey, extra: seq<AccountMeta>, stored: Option<seq<CallbackAccount>>): (r: Result<seq<AccountMeta>, ProgramError>)
    // with no stored list the extra accounts are not checked, and not passed on
    ensures stored.None? ==> r == Ok([AccountMeta(execution, true, false)])
    ensures stored.Some? && |stored.value| != |extra| ==> r == Err(Channel(InvalidCallbackExtraAccounts))
    ensures stored.Some? && |stored.value| == |extra| ==>
      (r.Ok? <==> forall i | 0 <= i < |extra| :: extra[i].key == stored.value[i].pubkey
                                             && (extra[i].isWritable ==> stored.value[i].writable != 255)
                                             && (!extra[i].isWritable ==> stored.value[i].writable != 1))
    ensures r.Err? ==> r.error == Channel(InvalidCallbackExtraAccounts)
    // only the execution account signs the callback
    ensures r.Ok? ==> |r.value| >= 1 && r.value[0] == AccountMeta(execution, true, false)
                      && forall i | 1 <= i < |r.value| :: !r.value[i].isSigner
    ensures r.Ok? && stored.Some? ==> r.value[1..] == Forwarded(extra)
  {
    var head := [AccountMeta(execution, true, false)];
    match stored
    case None => Ok(head)
    case Some(list) =>
      if |extra| != |list| then Err(Channel(InvalidCallbackExtraAccounts))
      else if exists i | 0 <= i < |extra| :: !Allowed(extra[i], list[i]) then Err(Channel(InvalidCallbackExtraAccounts))
      else Ok(head + Forwarded(extra))
  }

  /** The loop that checks the extra accounts and builds the callback's account list. */
  method BuildCallbackAccounts(execution: Pubkey, extra: seq<AccountMeta>, stored: Option<seq<CallbackAccount>>)
    returns (r: Result<seq<AccountMeta>, ProgramError>)
    ensures r == CallbackMetas(execution, extra, stored)
  {
    var metas := [AccountMeta(execution, true, false)];
    if stored.Some? {
      var list := stored.value;
      if |extra| != |list| {
        return Err(Channel(InvalidCallbackExtraAccounts));
      }
      var i := 0;
      while i < |extra|
        invariant 0 <= i <= |extra|
        invariant forall j | 0 <= j < i :: Allowed(extra[j], list[j])
        invariant metas == [AccountMeta(execution, true, false)] + Forwarded(extra[..i])
      {
        var a, storedA := extra[i], list[i];
        if a.key != storedA.pubkey {
          return Err(Channel(InvalidCallbackExtraAccounts));
        }
        if a.isWritable {
          if BitNot(storedA.writable) == 0 {
            return Err(Channel(InvalidCallbackExtraAccounts));
          }
          metas := metas + [AccountMeta(a.key, false, true)];
        } else {
          if storedA.writable == 1 {
            return Err(Channel(InvalidCallbackExtraAccounts));
          }
          metas := metas + [AccountMeta(a.key, false, false)];
        }
        assert extra[..i + 1][..i] == extra[..i];
        i := i + 1;
      }
      assert extra[..i] == extra;
    }
    return Ok(metas);
  }

  /** The callback's instruction data: the stored prefix, followed by the input digest and outputs when forwarding. */
  function CallbackData(er: ExecutionRequestV1, st: StatusV1, report: Report): (data: Bytes)
    requires er.callbackInstructionPrefix.Some?
    ensures er.callbackInstructionPrefix.value <= data
    ensures er.forwardOutput && st.committedOutputs.Some? ==>
      data[|er.callbackInstructionPrefix.value|..] == report.inputDigest + st.committedOutputs.value
    ensures !(er.forwardOutput && st.committedOutputs.Some?) ==> data == er.callbackInstructionPrefix.value
  {
    if er.forwardOutput && st.committedOutputs.Some?
    then er.callbackInstructionPrefix.value + report.inputDigest + st.committedOutputs.value
    else er.callbackInstructionPrefix.value
  }

  /** The callback a verified status makes, if any. */
  function Callback(env: Env, accounts: seq<AccountMeta>, er: ExecutionRequestV1, st: StatusV1, report: Report, executionId: string, bump: Byte)
    : (r: Result<seq<Invocation>, ProgramError>)
    requires |accounts| >= 4
    // a callback is made only to a program other than this one, and only when a prefix is stored
    ensures accounts[3].key == env.programId || er.callbackInstructionPrefix.None? ==> r == Ok([])
    ensures (accounts[3].key != env.programId && er.callbackInstructionPrefix.Some?
             && er.callbackProgramId.GetOr(env.programId) != accounts[3].key) ==> r == Err(Channel(InvalidCallbackProgram))
    ensures r.Err? ==> r.error in {Channel(InvalidCallbackProgram), Channel(InvalidCallbackExtraAccounts)}
    ensures r.Ok? ==> |r.value| <= 1
    // a configured callback to the stored program is made exactly when the extra accounts check out
    ensures (accounts[3].key != env.programId && er.callbackInstructionPrefix.Some?
             && er.callbackProgramId.GetOr(env.programId) == accounts[3].key) ==>
      && (CallbackMetas(accounts[1].key, accounts[4..], er.callbackExtraAccounts).Err? ==>
            r == Err(Channel(InvalidCallbackExtraAccounts)))
      && (CallbackMetas(accounts[1].key, accounts[4..], er.callbackExtraAccounts).Ok? ==>
            r.Ok? && |r.value| == 1
            && r.value[0].instruction.accounts == CallbackMetas(accounts[1].key, accounts[4..], er.callbackExtraAccounts).value
            && r.value[0].bump == bump)
    // the instruction goes to the program id accounts[1], signed as the execution address of accounts[0]
    ensures r.Ok? && r.value != [] ==>
      && er.callbackInstructionPrefix.Some?
      && r.value[0].instruction.programId == accounts[1].key
      && r.value[0].instruction.data == CallbackData(er, st, report)
      && r.value[0].signerSeeds == ExecutionSeeds(accounts[0].key, executionId)
      && r.value[0].accountInfos == [accounts[1].key, accounts[3].key] + KeysOf(accounts[4..])
  {
    if accounts[3].key == env.programId || er.callbackInstructionPrefix.None? then Ok([])
    else
      :- CheckBytesMatch(er.callbackProgramId.GetOr(env.programId), accounts[3].key, InvalidCallbackProgram);
      var extra := accounts[4..];
      var metas :- CallbackMetas(accounts[1].key, extra, er.callbackExtraAccounts);
      var instruction := Instruction(accounts[1].key, metas, CallbackData(er, st, report));
      Ok([Invocation(instruction, [accounts[1].key, accounts[3].key] + KeysOf(extra), ExecutionSeeds(accounts[0].key, executionId), bump)])
  }

  /** The accounts and result of a settlement, and the cross-program invocations it made. */
  datatype Settlement = Settlement(step: Step, calls: seq<Invocation>)

  /** The status reaches the stored execution request: payload, id, derived address and request data are all there. */
  predicate Located(env: Env, m: AccountMap, accounts: seq<AccountMeta>, payload: Option<StatusV1>)
    requires Present(m, accounts)
  {
    && payload.Some? && payload.value.executionId.Some? && |accounts| >= 2
    && env.findProgramAddress(ExecutionSeeds(accounts[0].key, payload.value.executionId.value)).0 == accounts[0].key
    && m[accounts[1].key].data.ExecutionRequest?
  }

  /** Settlement once the execution request is read. */
  function Settle(env: Env, m: AccountMap, accounts: seq<AccountMeta>, st: StatusV1, er: ExecutionRequestV1,
                  executionId: string, bump: Byte, slot: nat): (s: Settlement)
    requires |accounts| >= 2 && Present(m, accounts)
    ensures s.step.accounts.Keys == m.Keys && Total(s.step.accounts) == Total(m)
  {
    var requester, execution := accounts[0].key, accounts[1].key;
    if er.maxBlockHeight < slot then Settlement(Step(Err(Channel(ExecutionExpired)), m), [])
    else
      match CompleteReport(st)
      case None => Settlement(Step(Ok(()), CloseAccount(m, execution, requester, Exit(ProvingError))), [])
      case Some(report) =>
        match VerifyWithProver(env, er, st, report)
        case Err(e) => Settlement(Step(Err(e), m), [])
        case Ok(verified) =>
          if !verified then Settlement(Step(Ok(()), CloseAccount(m, execution, requester, Exit(VerifyError))), [])
          else if |accounts| < 4 then Settlement(Step(Err(Panic), m), [])
          else
            match Callback(env, accounts, er, st, report, executionId, bump)
            case Err(e) => Settlement(Step(Err(e), m), [])
            case Ok(calls) =>
              var paid := Transfer(m, execution, accounts[2].key, er.tip);
              if paid.result.Err? then Settlement(paid, calls)
              else Settlement(Step(Ok(()), CloseAccount(paid.accounts, execution, requester, Exit(Success))), calls)
  }

  /** process_status_v1 as a function of the accounts before it runs, including effects an error leaves behind. */
  function StatusSpec(env: Env, m: AccountMap, accounts: seq<AccountMeta>, payload: Option<StatusV1>, slot: nat): (s: Settlement)
    requires Present(m, accounts)
    ensures s.step.accounts.Keys == m.Keys && Total(s.step.accounts) == Total(m)
    ensures payload.None? ==> s == Settlement(Step(Err(Channel(InvalidInstruction)), m), [])
    // every successful settlement closes the execution account
    ensures s.step.result.Ok? ==> |accounts| >= 2 && s.step.accounts[accounts[1].key].data.Closed?
    ensures !Located(env, m, accounts, payload) ==> s.step.accounts == m && s.calls == [] && s.step.result.Err?
    // expiry is checked before any proof handling; a request is still live at its max block height
    ensures Located(env, m, accounts, payload) && m[accounts[1].key].data.request.maxBlockHeight < slot ==>
      s == Settlement(Step(Err(Channel(ExecutionExpired)), m), [])
    ensures Located(env, m, accounts, payload) && slot <= m[accounts[1].key].data.request.maxBlockHeight
            && CompleteReport(payload.value).None? ==>
      s == Settlement(Step(Ok(()), CloseAccount(m, accounts[1].key, accounts[0].key, Exit(ProvingError))), [])
    ensures Located(env, m, accounts, payload) && slot <= m[accounts[1].key].data.request.maxBlockHeight
            && CompleteReport(payload.value).Some?
            && VerifyWithProver(env, m[accounts[1].key].data.request, payload.value, CompleteReport(payload.value).value) == Ok(false) ==>
      s == Settlement(Step(Ok(()), CloseAccount(m, accounts[1].key, accounts[0].key, Exit(VerifyError))), [])
    // a verifier error, such as the panic for version 1.0.1 without an image id, aborts settlement
    ensures Located(env, m, accounts, payload) && slot <= m[accounts[1].key].data.request.maxBlockHeight
            && CompleteReport(payload.value).Some?
            && VerifyWithProver(env, m[accounts[1].key].data.request, payload.value, CompleteReport(payload.value).value).Err? ==>
      s == Settlement(Step(Err(VerifyWithProver(env, m[accounts[1].key].data.request, payload.value,
                                                CompleteReport(payload.value).value).error), m), [])
    // a verified report needs the prover and callback accounts
    ensures Located(env, m, accounts, payload) && slot <= m[accounts[1].key].data.request.maxBlockHeight
            && CompleteReport(payload.value).Some?
            && VerifyWithProver(env, m[accounts[1].key].data.request, payload.value, CompleteReport(payload.value).value) == Ok(true)
            && |accounts| < 4 ==>
      s == Settlement(Step(Err(Panic), m), [])
    // a failed callback check aborts settlement with its error, before any payout or invocation
    ensures Located(env, m, accounts, payload) && slot <= m[accounts[1].key].data.request.maxBlockHeight
            && CompleteReport(payload.value).Some?
            && VerifyWithProver(env, m[accounts[1].key].data.request, payload.value, CompleteReport(payload.value).value) == Ok(true)
            && |accounts| >= 4
            && Callback(env, accounts, m[accounts[1].key].data.request, payload.value, CompleteReport(payload.value).value,
                        payload.value.executionId.value, ExecutionBump(env, accounts, payload.value.executionId.value)).Err? ==>
      s == Settlement(Step(Err(Callback(env, accounts, m[accounts[1].key].data.request, payload.value,
                                        CompleteReport(payload.value).value, payload.value.executionId.value,
                                        ExecutionBump(env, accounts, payload.value.executionId.value)).error), m), [])
    // otherwise the callback is made, and then the tip is paid if the execution account can cover it
    ensures Located(env, m, accounts, payload) && slot <= m[accounts[1].key].data.request.maxBlockHeight
            && CompleteReport(payload.value).Some?
            && VerifyWithProver(env, m[accounts[1].key].data.request, payload.value, CompleteReport(payload.value).value) == Ok(true)
            && |accounts| >= 4
            && Callback(env, accounts, m[accounts[1].key].data.request, payload.value, CompleteReport(payload.value).value,
                        payload.value.executionId.value, ExecutionBump(env, accounts, payload.value.executionId.value)).Ok? ==>
      && s.calls == Callback(env, accounts, m[accounts[1].key].data.request, payload.value, CompleteReport(payload.value).value,
                             payload.value.executionId.value, ExecutionBump(env, accounts, payload.value.executionId.value)).value
      && (s.step.result.Ok? <==> m[accounts[1].key].data.request.tip <= m[accounts[1].key].lamports)
      && (s.step.result.Err? ==> s.step == Step(Err(InsufficientFunds), m))
    // a callback is made, and the tip paid, only for a verified report
    ensures (|s.calls| > 0 || (|accounts| >= 2 && s.step.accounts[accounts[1].key].data == Closed(Exit(Success))
                                && m[accounts[1].key].data != Closed(Exit(Success)))) ==>
      && Located(env, m, accounts, payload) && |accounts| >= 4
      && slot <= m[accounts[1].key].data.request.maxBlockHeight
      && CompleteReport(payload.value).Some?
      && VerifyWithProver(env, m[accounts[1].key].data.request, payload.value, CompleteReport(payload.value).value) == Ok(true)
  {
    if payload.None? then Settlement(Step(Err(Channel(InvalidInstruction)), m), [])
    else
      var st := payload.value;
      if |accounts| < 1 || st.executionId.None? then Settlement(Step(Err(Panic), m), [])
      else
        var executionId := st.executionId.value;
        match CheckPda(env, ExecutionSeeds(accounts[0].key, executionId), accounts[0].key, InvalidExecutionAccount)
        case Err(e) => Settlement(Step(Err(e), m), [])
        case Ok(bump) =>
          if |accounts| < 2 then Settlement(Step(Err(Panic), m), [])
          else
            match m[accounts[1].key].data
            case ExecutionRequest(er) => Settle(env, m, accounts, st, er, executionId, bump, slot)
            case _ => Settlement(Step(Err(Channel(InvalidExecutionAccount)), m), [])
  }

  /** process_status_v1. */
  method ProcessStatusV1(ledger: Ledger, env: Env, accounts: seq<AccountMeta>, payload: Option<StatusV1>, slot: nat)
    returns (r: Result<(), ProgramError>)
    requires Present(ledger.accounts, accounts)
    modifies ledger
    ensures Step(r, ledger.accounts) == StatusSpec(env, old(ledger.accounts), accounts, payload, slot).step
    ensures ledger.subCalls == old(ledger.subCalls) + StatusSpec(env, old(ledger.accounts), accounts, payload, slot).calls
  {
    if payload.None? {
      return Err(Channel(InvalidInstruction));
    }
    var st := payload.value;
    if |accounts| < 1 || st.executionId.None? {
      return Err(Panic);
    }
    var executionId := st.executionId.value;
    var executionBump :- CheckPda(env, ExecutionSeeds(accounts[0].key, executionId), accounts[0].key, InvalidExecutionAccount);
    if |accounts| < 2 {
      return Err(Panic);
    }
    var data := ledger.accounts[accounts[1].key].data;
    if !data.ExecutionRequest? {
      return Err(Channel(InvalidExecutionAccount));
    }
    var er := data.request;
    if er.maxBlockHeight < slot {
      return Err(Channel(ExecutionExpired));
    }
    var complete := CompleteReport(st);
    if complete.None? {
      ledger.CleanupExecutionAccount(accounts[1].key, accounts[0].key, Exit(ProvingError));
      return Ok(());
    }
    var report := complete.value;
    // the comparison of the stored and reported input digests has no effect on the outcome
    var verified :- VerifyWithProver(env, er, st, report);
    var tip := er.tip;
    if !verified {
      ledger.CleanupExecutionAccount(accounts[1].key, accounts[0].key, Exit(VerifyError));
      return Ok(());
    }
    if |accounts| < 4 {
      return Err(Panic);
    }
    if accounts[3].key != env.programId && er.callbackInstructionPrefix.Some? {
      :- CheckBytesMatch(er.callbackProgramId.GetOr(env.programId), accounts[3].key, InvalidCallbackProgram);
      var extra := accounts[4..];
      var metas :- BuildCallbackAccounts(accounts[1].key, extra, er.callbackExtraAccounts);
      var instruction := Instruction(accounts[1].key, metas, CallbackData(er, st, report));
      // the callee's result is only logged, so it does not change the outcome
      ledger.InvokeSigned(Invocation(instruction, [accounts[1].key, accounts[3].key] + KeysOf(extra),
                                     ExecutionSeeds(accounts[0].key, executionId), executionBump));
    }
    var paid :- ledger.TransferLamports(accounts[1].key, accounts[2].key, tip);
    ledger.CleanupExecutionAccount(accounts[1].key, accounts[0].key, Exit(Success));
    return Ok(());
  }

  /** The bump of the execution address the status is checked against. */
  function ExecutionBump(env: Env, accounts: seq<AccountMeta>, executionId: string): (bump: Byte)
    requires |accounts| >= 1
  {
    env.findProgramAddress(ExecutionSeeds(accounts[0].key, executionId)).1
  }

  /**
   * Reading the request, before any settlement: a missing id or account list
   * panics, and both an id that does not derive accounts[0] (the address is
   * checked against the requester's slot) and request data that does not
   * decode give InvalidExecutionAccount. None of them changes anything.
   */
  lemma RequestNotRead(env: Env, m: AccountMap, accounts: seq<AccountMeta>, payload: Option<StatusV1>, slot: nat)
    requires Present(m, accounts) && payload.Some?
    ensures |accounts| == 0 || payload.value.executionId.None? ==>
      StatusSpec(env, m, accounts, payload, slot) == Settlement(Step(Err(Panic), m), [])
    ensures payload.value.executionId.Some? && |accounts| >= 1
            && env.findProgramAddress(ExecutionSeeds(accounts[0].key, payload.value.executionId.value)).0 != accounts[0].key ==>
      StatusSpec(env, m, accounts, payload, slot) == Settlement(Step(Err(Channel(InvalidExecutionAccount)), m), [])
    ensures payload.value.executionId.Some? && |accounts| == 1
            && env.findProgramAddress(ExecutionSeeds(accounts[0].key, payload.value.executionId.value)).0 == accounts[0].key ==>
      StatusSpec(env, m, accounts, payload, slot) == Settlement(Step(Err(Panic), m), [])
    ensures payload.value.executionId.Some? && |accounts| >= 2
            && env.findProgramAddress(ExecutionSeeds(accounts[0].key, payload.value.executionId.value)).0 == accounts[0].key
            && !m[accounts[1].key].data.ExecutionRequest? ==>
      StatusSpec(env, m, accounts, payload, slot) == Settlement(Step(Err(Channel(InvalidExecutionAccount)), m), [])
  {
  }

  /**
   * A verified report on a live request pays exactly the tip from the
   * execution account to accounts[2], whoever holds the claim, and closes the
   * execution account to the requester with Success; nothing else changes.
   */
  lemma SettlementPaysProver(env: Env, m: AccountMap, accounts: seq<AccountMeta>, payload: Option<StatusV1>, slot: nat)
    requires Present(m, accounts) && Located(env, m, accounts, payload) && |accounts| >= 4
    requires accounts[0].key != accounts[1].key && accounts[1].key != accounts[2].key && accounts[0].key != accounts[2].key
    requires var er := m[accounts[1].key].data.request;
      && slot <= er.maxBlockHeight && CompleteReport(payload.value).Some?
      && VerifyWithProver(env, er, payload.value, CompleteReport(payload.value).value) == Ok(true)
      && Callback(env, accounts, er, payload.value, CompleteReport(payload.value).value, payload.value.executionId.value,
                  ExecutionBump(env, accounts, payload.value.executionId.value)).Ok?
      && er.tip <= m[accounts[1].key].lamports
    ensures var s := StatusSpec(env, m, accounts, payload, slot);
      var tip := m[accounts[1].key].data.request.tip;
      && s.step.result == Ok(())
      && s.step.accounts[accounts[2].key].lamports == m[accounts[2].key].lamports + tip
      && s.step.accounts[accounts[0].key].lamports + tip == m[accounts[0].key].lamports + m[accounts[1].key].lamports
      && s.step.accounts[accounts[1].key] == Account(0, m[accounts[1].key].owner, Closed(Exit(Success)))
      && forall k | k in m && k != accounts[0].key && k != accounts[1].key && k != accounts[2].key :: s.step.accounts[k] == m[k]
  {
    var st, executionId := payload.value, payload.value.executionId.value;
    var er := m[accounts[1].key].data.request;
    assert StatusSpec(env, m, accounts, payload, slot) == Settle(env, m, accounts, st, er, executionId, ExecutionBump(env, accounts, executionId), slot);
  }

  /**
   * The stored input-hash settings play no part in settlement: changing
   * whether the request asked for an input-hash check, or the digest it
   * stored, changes neither the result nor the callback.
   */
  lemma InputDigestIgnored(env: Env, m: AccountMap, accounts: seq<AccountMeta>, payload: Option<StatusV1>, slot: nat,
                           verifyInputHash: bool, inputDigest: Option<Bytes>)
    requires Present(m, accounts) && |accounts| >= 2 && m[accounts[1].key].data.ExecutionRequest?
    ensures var er := m[accounts[1].key].data.request;
      var changed := m[accounts[1].key := m[accounts[1].key].(data :=
                       ExecutionRequest(er.(verifyInputHash := verifyInputHash, inputDigest := inputDigest)))];
      && Present(changed, accounts)
      && StatusSpec(env, changed, accounts, payload, slot).step.result == StatusSpec(env, m, accounts, payload, slot).step.result
      && StatusSpec(env, changed, accounts, payload, slot).calls == StatusSpec(env, m, accounts, payload, slot).calls
  {
    var er := m[accounts[1].key].data.request;
    var er' := er.(verifyInputHash := verifyInputHash, inputDigest := inputDigest);
    var changed := m[accounts[1].key := m[accounts[1].key].(data := ExecutionRequest(er'))];
    assert Present(changed, accounts) by {
      assert changed.Keys == m.Keys;
    }
    if payload.Some? && payload.value.executionId.Some? {
      var st, executionId := payload.value, payload.value.executionId.value;
      var bump := ExecutionBump(env, accounts, executionId);
      if env.findProgramAddress(ExecutionSeeds(accounts[0].key, executionId)).0 == accounts[0].key {
        assert StatusSpec(env, m, accounts, payload, slot) == Settle(env, m, accounts, st, er, executionId, bump, slot);
        assert StatusSpec(env, changed, accounts, payload, slot) == Settle(env, changed, accounts, st, er', executionId, bump, slot);
        SettleIgnoresInputHash(env, m, changed, accounts, st, er, er', executionId, bump, slot);
      }
    }
  }

  lemma SettleIgnoresInputHash(env: Env, m: AccountMap, m': AccountMap, accounts: seq<AccountMeta>, st: StatusV1,
                               er: ExecutionRequestV1, er': ExecutionRequestV1, executionId: string, bump: Byte, slot: nat)
    requires |accounts| >= 2 && Present(m, accounts) && Present(m', accounts)
    requires m'.Keys == m.Keys && forall k | k in m :: m'[k].lamports == m[k].lamports
    requires er' == er.(verifyInputHash := er'.verifyInputHash, inputDigest := er'.inputDigest)
    ensures Settle(env, m', accounts, st, er', executionId, bump, slot).step.result == Settle(env, m, accounts, st, er, executionId, bump, slot).step.result
    ensures Settle(env, m', accounts, st, er', executionId, bump, slot).calls == Settle(env, m, accounts, st, er, executionId, bump, slot).calls
  {
    if slot <= er.maxBlockHeight && CompleteReport(st).Some? {
      var report := CompleteReport(st).value;
      assert er'.proverVersion == er.proverVersion && er'.imageId == er.imageId;
      assert VersionOf(env, er') == VersionOf(env, er);
      assert VerifyWithProver(env, er', st, report) == VerifyWithProver(env, er, st, report);
      if VerifyWithProver(env, er, st, report) == Ok(true) && |accounts| >= 4 {
        CallbackIgnoresInputHash(env, accounts, er, er', st, report, executionId, bump);
      }
    }
  }

  lemma CallbackIgnoresInputHash(env: Env, accounts: seq<AccountMeta>, er: ExecutionRequestV1, er': ExecutionRequestV1,
                                 st: StatusV1, report: Report, executionId: string, bump: Byte)
    requires |accounts| >= 4
    requires er' == er.(verifyInputHash := er'.verifyInputHash, inputDigest := er'.inputDigest)
    ensures Callback(env, accounts, er', st, report, executionId, bump) == Callback(env, accounts, er, st, report, executionId, bump)
  {
    if er.callbackInstructionPrefix.Some? {
      assert CallbackData(er', st, report) == CallbackData(er, st, report);
    }
  }

  /**
   * As written, the writable check tests the bitwise not of the stored flag:
   * an extra account the request stored with flag 0 may be supplied
   * writable, and only flag 255 refuses it.
   */
  lemma WritableFlagQuirk(execution: Pubkey, a: AccountMeta, flag: Byte)
    requires a.isWritable
    ensures CallbackMetas(execution, [a], Some([CallbackAccount(a.key, flag)])).Ok? <==> flag != 255
  {
    assert [a][0] == a;
  }

  /** A complete report always carries committed outputs, so forwarding always appends the input digest and outputs. */
  lemma CallbackPayload(er: ExecutionRequestV1, st: StatusV1)
    requires er.callbackInstructionPrefix.Some? && CompleteReport(st).Some?
    ensures er.forwardOutput ==>
      CallbackData(er, st, CompleteReport(st).value) == er.callbackInstructionPrefix.value + st.inputDigest.value + st.committedOutputs.value
    ensures !er.forwardOutput ==> CallbackData(er, st, CompleteReport(st).value) == er.callbackInstructionPrefix.value
  {
  }
}
