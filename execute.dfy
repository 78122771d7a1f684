/**
 * Admission: checking a new execution request against its deployment and
 * writing it to the execution account.
 *
 * Accounts: 0 requester, 1 payer, 2 execution account, 3 deployment,
 * 4 callback program, 5 system program, 6 and on extra accounts (input sets).
 */
module Execute {
  import opened Wrappers
  import opened Schema
  import opened Errors
  import opened Accounts
  import opened Runtime

  /** The guards on the account list, in the order the program runs them. */
  function CheckExecutionAccounts(env: Env, m: AccountMap, accounts: seq<AccountMeta>): (r: Result<(), ProgramError>)
    requires Present(m, accounts)
    ensures r.Ok? <==>
      && |accounts| >= 6
      && accounts[0].isSigner && accounts[0].isWritable
      && accounts[1].isSigner && accounts[1].isWritable
      && accounts[2].isWritable && m[accounts[2].key].owner == env.systemProgram && IsEmpty(m, accounts[2].key)
      && m[accounts[3].key].owner == env.programId
      && accounts[5].key == env.systemProgram
      && (accounts[5].key == env.programId || m[accounts[5].key].owner == env.bpfLoaderUpgradeable)
    // a short list panics at the first missing account the guards reach
    ensures r.Err? && |accounts| >= 6 ==> r.error != Panic
    ensures |accounts| == 0 ==> r == Err(Panic)
    ensures (4 <= |accounts| < 6
             && accounts[0].isSigner && accounts[0].isWritable
             && accounts[1].isSigner && accounts[1].isWritable
             && accounts[2].isWritable && m[accounts[2].key].owner == env.systemProgram && IsEmpty(m, accounts[2].key)
             && m[accounts[3].key].owner == env.programId) ==> r == Err(Panic)
    // which guard fails, in the order they run
    ensures |accounts| >= 1 && !(accounts[0].isSigner && accounts[0].isWritable) ==> r == Err(Channel(InvalidRequesterAccount))
    ensures (|accounts| >= 2 && accounts[0].isSigner && accounts[0].isWritable
             && !(accounts[1].isSigner && accounts[1].isWritable)) ==> r == Err(Channel(InvalidPayerAccount))
    ensures (|accounts| >= 3 && accounts[0].isSigner && accounts[0].isWritable && accounts[1].isSigner && accounts[1].isWritable
             && !(accounts[2].isWritable && m[accounts[2].key].owner == env.systemProgram && IsEmpty(m, accounts[2].key)))
            ==> r == Err(Channel(InvalidExecutionAccount))
    ensures (|accounts| >= 4 && accounts[0].isSigner && accounts[0].isWritable && accounts[1].isSigner && accounts[1].isWritable
             && accounts[2].isWritable && m[accounts[2].key].owner == env.systemProgram && IsEmpty(m, accounts[2].key)
             && m[accounts[3].key].owner != env.programId) ==> r == Err(Channel(InvalidDeploymentAccount))
    ensures (|accounts| >= 6 && accounts[0].isSigner && accounts[0].isWritable && accounts[1].isSigner && accounts[1].isWritable
             && accounts[2].isWritable && m[accounts[2].key].owner == env.systemProgram && IsEmpty(m, accounts[2].key)
             && m[accounts[3].key].owner == env.programId
             && accounts[5].key != env.systemProgram) ==> r == Err(Channel(InvalidInstruction))
    ensures (|accounts| >= 6 && accounts[0].isSigner && accounts[0].isWritable && accounts[1].isSigner && accounts[1].isWritable
             && accounts[2].isWritable && m[accounts[2].key].owner == env.systemProgram && IsEmpty(m, accounts[2].key)
             && m[accounts[3].key].owner == env.programId
             && accounts[5].key == env.systemProgram
             && !(accounts[5].key == env.programId || m[accounts[5].key].owner == env.bpfLoaderUpgradeable))
            ==> r == Err(Channel(InvalidCallbackAccount))
    ensures r.Err? ==> r.error in {Panic, Channel(InvalidRequesterAccount), Channel(InvalidPayerAccount),
                                   Channel(InvalidExecutionAccount), Channel(InvalidDeploymentAccount),
                                   Channel(InvalidInstruction), Channel(InvalidCallbackAccount)}
    // the system program passes the fifth guard and fails the sixth unless it is owned by the upgradeable loader
    ensures (|accounts| >= 6 && accounts[5].key == env.systemProgram != env.programId
             && m[accounts[5].key].owner != env.bpfLoaderUpgradeable) ==> r.Err?
  {
    var requester :- Nth(accounts, 0);
    :- CheckWritableSigner(requester, InvalidRequesterAccount);
    var payer :- Nth(accounts, 1);
    :- CheckWritableSigner(payer, InvalidPayerAccount);
    var execution :- Nth(accounts, 2);
    :- CheckWriteable(execution, InvalidExecutionAccount);
    :- CheckOwner(m, execution, env.systemProgram, InvalidExecutionAccount);
    :- Ensure0(m, execution, InvalidExecutionAccount);
    var deployment :- Nth(accounts, 3);
    :- CheckOwner(m, deployment, env.programId, InvalidDeploymentAccount);
    var system :- Nth(accounts, 5);
    :- CheckKeyMatch(system, env.systemProgram, InvalidInstruction);
    // `or` of two checks: either one passing is enough
    :- Need(system.key == env.programId || m[system.key].owner == env.bpfLoaderUpgradeable, InvalidCallbackAccount);
    Ok(())
  }

  /** validate_er: a request needs a nonzero expiry, and an input digest when it asks for input-hash verification. */
  function ValidateEr(er: ExecutionRequestV1): (r: Result<(), ProgramError>)
    ensures r.Ok? <==> er.maxBlockHeight != 0 && (er.verifyInputHash ==> er.inputDigest.Some?)
    ensures er.maxBlockHeight == 0 ==> r == Err(Channel(MaxBlockHeightRequired))
    ensures er.maxBlockHeight != 0 && r.Err? ==> r == Err(Channel(InputDigestRequired))
  {
    if er.maxBlockHeight == 0 then Err(Channel(MaxBlockHeightRequired))
    else if er.verifyInputHash && er.inputDigest.None? then Err(Channel(InputDigestRequired))
    else Ok(())
  }

  /** The inputs the counting pipeline keeps: input-set references that carry data. */
  predicate IsSetReference(i: Input)
  {
    i.data.Some? && i.inputType == InputSet
  }

  /**
   * The number of inputs a set reference stands for. Its first data byte,
   * minus 6 with u8 wrap-around, indexes the extra accounts; a missing byte or
   * account panics. An account that is not an input set, or a set without
   * inputs, counts 0.
   */
  function SetSize(m: AccountMap, i: Input, extra: seq<AccountMeta>): (r: Result<nat, ProgramError>)
    requires IsSetReference(i) && Present(m, extra)
    // an empty reference, or one naming no extra account, panics
    ensures r.Err? <==> |i.data.value| == 0 || (i.data.value[0] as int - 6) % 256 >= |extra|
    ensures r.Err? ==> r.error == Panic
    // a referenced input set counts its inputs; anything else that decodes to no inputs counts 0
    ensures r.Ok? ==> var data := m[extra[(i.data.value[0] as int - 6) % 256].key].data;
      && (data.InputSetData? && data.inputSet.inputs.Some? ==> r.value == |data.inputSet.inputs.value|)
      && (!(data.InputSetData? && data.inputSet.inputs.Some?) ==> r.value == 0)
  {
    if |i.data.value| == 0 then Err(Panic)
    else
      var first: int := i.data.value[0];
      var index := (first - 6) % 256;
      if index >= |extra| then Err(Panic)
      else
        match m[extra[index].key].data
        case InputSetData(InputSetV1(Some(items))) => Ok(|items|)
        case _ => Ok(0)
  }

  /** The counter `num_sets`: how many inputs are set references. */
  function SetCount(inputs: seq<Input>): (n: nat)
    ensures n <= |inputs|
  {
    if inputs == [] then 0
    else SetCount(inputs[..|inputs| - 1]) + (if IsSetReference(inputs[|inputs| - 1]) then 1 else 0)
  }

  /** The fold over the set references: the sum of their sizes, or a panic. */
  function SetItems(m: AccountMap, inputs: seq<Input>, extra: seq<AccountMeta>): (r: Result<nat, ProgramError>)
    requires Present(m, extra)
    ensures r.Err? ==> r.error == Panic
  {
    if inputs == [] then Ok(0)
    else
      var last := inputs[|inputs| - 1];
      var sum :- SetItems(m, inputs[..|inputs| - 1], extra);
      var size :- if IsSetReference(last) then SetSize(m, last, extra) else Ok(0);
      Ok(sum + size)
  }

  /** Reference count: every input is one item, except that a set reference stands for its set's size. */
  function ExpandedCount(m: AccountMap, inputs: seq<Input>, extra: seq<AccountMeta>): (r: Result<nat, ProgramError>)
    requires Present(m, extra)
    ensures r.Err? ==> r.error == Panic
  {
    if inputs == [] then Ok(0)
    else
      var last := inputs[|inputs| - 1];
      var count :- ExpandedCount(m, inputs[..|inputs| - 1], extra);
      var items :- if IsSetReference(last) then SetSize(m, last, extra) else Ok(1);
      Ok(count + items)
  }

  /** `inputs.len() - num_sets + sum` is the reference count. */
  lemma {:induction false} ExpandedCountIsFold(m: AccountMap, inputs: seq<Input>, extra: seq<AccountMeta>)
    requires Present(m, extra)
    ensures SetCount(inputs) <= |inputs|
    ensures SetItems(m, inputs, extra).Ok? <==> ExpandedCount(m, inputs, extra).Ok?
    ensures SetItems(m, inputs, extra).Ok? ==>
      ExpandedCount(m, inputs, extra).value == |inputs| - SetCount(inputs) + SetItems(m, inputs, extra).value
  {
    if inputs != [] {
      ExpandedCountIsFold(m, inputs[..|inputs| - 1], extra);
    }
  }

  /** A panic at some set reference is a panic of the whole fold. */
  lemma {:induction false} SetItemsPanicPersists(m: AccountMap, inputs: seq<Input>, k: nat, extra: seq<AccountMeta>)
    requires Present(m, extra) && k <= |inputs|
    requires SetItems(m, inputs[..k], extra).Err?
    ensures SetItems(m, inputs, extra) == Err(Panic)
    decreases |inputs| - k
  {
    if k == |inputs| {
      assert inputs[..k] == inputs;
    } else {
      var front := inputs[..|inputs| - 1];
      assert front[..k] == inputs[..k];
      SetItemsPanicPersists(m, front, k, extra);
    }
  }

  predicate HasPrivateLocal(inputs: seq<Input>)
  {
    exists i | 0 <= i < |inputs| :: inputs[i].inputType == PrivateLocal
  }

  /** validate_inputs as a function: the input-count rule. */
  function CheckInputs(m: AccountMap, er: ExecutionRequestV1, required: nat, extra: seq<AccountMeta>): (r: Result<(), ProgramError>)
    requires Present(m, extra)
    ensures er.input.None? ==> r == Err(Channel(InvalidInputs))
    ensures er.input.Some? && HasPrivateLocal(er.input.value) ==> r == Err(Channel(InvalidInputType))
    ensures r.Ok? <==> er.input.Some? && !HasPrivateLocal(er.input.value) && ExpandedCount(m, er.input.value, extra) == Ok(required)
    // a bad set reference panics through `unwrap`; a count that differs from the required one gives InvalidInputs
    ensures er.input.Some? && !HasPrivateLocal(er.input.value) && ExpandedCount(m, er.input.value, extra).Err? ==>
      r == Err(Panic)
    ensures (er.input.Some? && !HasPrivateLocal(er.input.value) && ExpandedCount(m, er.input.value, extra).Ok?
             && ExpandedCount(m, er.input.value, extra).value != required) ==> r == Err(Channel(InvalidInputs))
    ensures r.Err? ==> r.error in {Channel(InvalidInputs), Channel(InvalidInputType), Panic}
  {
    if er.input.None? then Err(Channel(InvalidInputs))
    else
      var inputs := er.input.value;
      if HasPrivateLocal(inputs) then Err(Channel(InvalidInputType))
      else
        ExpandedCountIsFold(m, inputs, extra);
        var items :- SetItems(m, inputs, extra);
        if |inputs| - SetCount(inputs) + items != required then Err(Channel(InvalidInputs))
        else Ok(())
  }

  /** Inline inputs only: admission's count rule is that their number equals the deployment's input count. */
  lemma {:induction false} InlineInputsCount(m: AccountMap, inputs: seq<Input>, extra: seq<AccountMeta>)
    requires Present(m, extra)
    requires forall i | 0 <= i < |inputs| :: !IsSetReference(inputs[i])
    ensures ExpandedCount(m, inputs, extra) == Ok(|inputs|)
  {
    if inputs != [] {
      InlineInputsCount(m, inputs[..|inputs| - 1], extra);
    }
  }

  /** One more input extends the counter and the fold by that input alone. */
  lemma FoldStep(m: AccountMap, inputs: seq<Input>, k: nat, extra: seq<AccountMeta>)
    requires Present(m, extra) && k < |inputs|
    ensures SetCount(inputs[..k + 1]) == SetCount(inputs[..k]) + (if IsSetReference(inputs[k]) then 1 else 0)
    ensures SetItems(m, inputs[..k], extra).Ok? && !IsSetReference(inputs[k]) ==>
      SetItems(m, inputs[..k + 1], extra) == SetItems(m, inputs[..k], extra)
    ensures SetItems(m, inputs[..k], extra).Ok? && IsSetReference(inputs[k]) && SetSize(m, inputs[k], extra).Ok? ==>
      SetItems(m, inputs[..k + 1], extra) == Ok(SetItems(m, inputs[..k], extra).value + SetSize(m, inputs[k], extra).value)
  {
    assert inputs[..k + 1][..k] == inputs[..k];
  }

  /** Past the input-type check, the input-count rule is decided by the fold alone. */
  lemma CheckInputsBySetItems(m: AccountMap, er: ExecutionRequestV1, required: nat, extra: seq<AccountMeta>)
    requires Present(m, extra) && er.input.Some? && !HasPrivateLocal(er.input.value)
    ensures SetItems(m, er.input.value, extra).Err? ==> CheckInputs(m, er, required, extra) == Err(Panic)
    ensures SetItems(m, er.input.value, extra).Ok? ==>
      (CheckInputs(m, er, required, extra).Ok?
       <==> |er.input.value| - SetCount(er.input.value) + SetItems(m, er.input.value, extra).value == required)
    ensures CheckInputs(m, er, required, extra).Err? && SetItems(m, er.input.value, extra).Ok? ==>
      CheckInputs(m, er, required, extra) == Err(Channel(InvalidInputs))
  {
  }

  /** validate_inputs: the count of private-local inputs, then the `num_sets` counter and the fold in one pass. */
  method ValidateInputs(m: AccountMap, er: ExecutionRequestV1, required: nat, extra: seq<AccountMeta>)
    returns (r: Result<(), ProgramError>)
    requires Present(m, extra)
    ensures r == CheckInputs(m, er, required, extra)
  {
    if er.input.None? {
      return Err(Channel(InvalidInputs));
    }
    var inputs := er.input.value;
    if HasPrivateLocal(inputs) {
      return Err(Channel(InvalidInputType));
    }
    var numSets, sum, k := 0, 0, 0;
    while k < |inputs|
      invariant k <= |inputs|
      invariant numSets == SetCount(inputs[..k])
      invariant SetItems(m, inputs[..k], extra) == Ok(sum)
    {
      var input := inputs[k];
      FoldStep(m, inputs, k, extra);
      if IsSetReference(input) {
        numSets := numSets + 1;
        var size := SetSize(m, input, extra);
        if size.Err? {
          SetItemsPanicPersists(m, inputs, k + 1, extra);
          CheckInputsBySetItems(m, er, required, extra);
          return Err(Panic);
        }
        sum := sum + size.value;
      }
      k := k + 1;
    }
    assert inputs[..k] == inputs;
    CheckInputsBySetItems(m, er, required, extra);
    if |inputs| - numSets + sum != required {
      return Err(Channel(InvalidInputs));
    }
    return Ok(());
  }

  /** The input count a deployment declares; 1 when it declares none. */
  function RequiredInputs(deploy: DeployV1): (n: nat)
    ensures deploy.inputs.Some? ==> n == |deploy.inputs.value|
    ensures deploy.inputs.None? ==> n == 1
  {
    if deploy.inputs.Some? then |deploy.inputs.value| else 1
  }

  /** Every check of an execute instruction, in order; on success, the account the request is written to. */
  function AdmissionTarget(env: Env, m: AccountMap, accounts: seq<AccountMeta>, payload: Option<ExecutionRequestV1>)
    : (r: Result<Pubkey, ProgramError>)
    requires Present(m, accounts)
    ensures r.Ok? ==> |accounts| >= 6 && r.value == accounts[2].key && payload.Some?
  {
    var guarded :- CheckExecutionAccounts(env, m, accounts);
    if payload.None? then Err(Channel(InvalidInstruction))
    else if payload.value.executionId.None? then Err(Channel(InvalidExecutionId))
    else
      var er := payload.value;
      match m[accounts[3].key].data
      case Deployment(deploy) =>
        var valid :- CheckInputs(m, er, RequiredInputs(deploy), accounts[6..]);
        var bump :- CheckPda(env, ExecutionSeeds(accounts[0].key, er.executionId.value), accounts[3].key, InvalidExecutionAccount);
        Ok(accounts[2].key)
      case _ => Err(Channel(InvalidDeploymentAccount))
  }

  /** process_execute_v1 as a function of the accounts before it runs. */
  function ExecuteSpec(env: Env, m: AccountMap, accounts: seq<AccountMeta>, payload: Option<ExecutionRequestV1>): (s: Step)
    requires Present(m, accounts)
    // the account guards run before the payload is looked at
    ensures CheckExecutionAccounts(env, m, accounts).Err? ==>
      s == Step(Err(CheckExecutionAccounts(env, m, accounts).error), m)
    ensures CheckExecutionAccounts(env, m, accounts).Ok? && payload.None? ==> s == Step(Err(Channel(InvalidInstruction)), m)
    ensures CheckExecutionAccounts(env, m, accounts).Ok? && payload.Some? && payload.value.executionId.None? ==>
      s == Step(Err(Channel(InvalidExecutionId)), m)
    ensures s.result.Err? ==> s.accounts == m
    // the deployment must decode, then the inputs must match it, then the execution address is checked against accounts[3]
    ensures (CheckExecutionAccounts(env, m, accounts).Ok? && payload.Some? && payload.value.executionId.Some?
             && !m[accounts[3].key].data.Deployment?) ==> s == Step(Err(Channel(InvalidDeploymentAccount)), m)
    ensures (CheckExecutionAccounts(env, m, accounts).Ok? && payload.Some? && payload.value.executionId.Some?
             && m[accounts[3].key].data.Deployment?
             && CheckInputs(m, payload.value, RequiredInputs(m[accounts[3].key].data.deployment), accounts[6..]).Err?) ==>
      s == Step(Err(CheckInputs(m, payload.value, RequiredInputs(m[accounts[3].key].data.deployment), accounts[6..]).error), m)
    ensures (CheckExecutionAccounts(env, m, accounts).Ok? && payload.Some? && payload.value.executionId.Some?
             && m[accounts[3].key].data.Deployment?
             && CheckInputs(m, payload.value, RequiredInputs(m[accounts[3].key].data.deployment), accounts[6..]).Ok?) ==>
      s == if env.findProgramAddress(ExecutionSeeds(accounts[0].key, payload.value.executionId.value)).0 == accounts[3].key
           then Step(Ok(()), Written(m, accounts[2].key, env.programId, ExecutionRequest(payload.value)))
           else Step(Err(Channel(InvalidExecutionAccount)), m)
    // success writes the submitted request, unchanged, to the fresh execution account
    ensures s.result.Ok? ==>
      && CheckExecutionAccounts(env, m, accounts).Ok?
      && payload.Some? && payload.value.executionId.Some? && payload.value.input.Some?
      && m[accounts[3].key].data.Deployment?
      && ExpandedCount(m, payload.value.input.value, accounts[6..]) == Ok(RequiredInputs(m[accounts[3].key].data.deployment))
      && !HasPrivateLocal(payload.value.input.value)
      && env.findProgramAddress(ExecutionSeeds(accounts[0].key, payload.value.executionId.value)).0 == accounts[3].key
      && s.accounts == Written(m, accounts[2].key, env.programId, ExecutionRequest(payload.value))
  {
    match AdmissionTarget(env, m, accounts, payload)
    case Err(e) => Step(Err(e), m)
    case Ok(key) => Step(Ok(()), Written(m, key, env.programId, ExecutionRequest(payload.value)))
  }

  /** Admission never applies validate_er: a zero expiry or a missing required digest does not change the outcome. */
  lemma AdmissionSkipsValidateEr(env: Env, m: AccountMap, accounts: seq<AccountMeta>, er: ExecutionRequestV1)
    requires Present(m, accounts)
    ensures var unchecked := er.(maxBlockHeight := 0, verifyInputHash := true, inputDigest := None);
      && ValidateEr(unchecked).Err?
      && ExecuteSpec(env, m, accounts, Some(er)).result == ExecuteSpec(env, m, accounts, Some(unchecked)).result
  {
  }

  /** process_execute_v1. */
  method ProcessExecuteV1(ledger: Ledger, env: Env, accounts: seq<AccountMeta>, payload: Option<ExecutionRequestV1>)
    returns (r: Result<(), ProgramError>)
    requires Present(ledger.accounts, accounts)
    modifies ledger
    ensures Step(r, ledger.accounts) == ExecuteSpec(env, old(ledger.accounts), accounts, payload)
    ensures ledger.subCalls == old(ledger.subCalls)
  {
    var guarded :- CheckExecutionAccounts(env, ledger.accounts, accounts);
    if payload.None? {
      return Err(Channel(InvalidInstruction));
    }
    var er := payload.value;
    if er.executionId.None? {
      return Err(Channel(InvalidExecutionId));
    }
    var deployData := ledger.accounts[accounts[3].key].data;
    if !deployData.Deployment? {
      return Err(Channel(InvalidDeploymentAccount));
    }
    var required := RequiredInputs(deployData.deployment);
    var valid :- ValidateInputs(ledger.accounts, er, required, accounts[6..]);
    var bump :- CheckPda(env, ExecutionSeeds(accounts[0].key, er.executionId.value), accounts[3].key, InvalidExecutionAccount);
    ledger.SaveStructure(accounts[2].key, env.programId, ExecutionRequest(er));
    return Ok(());
  }
}
