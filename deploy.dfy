/**
 * Deployment: registering an image once, at the address derived from the
 * hash of its image id.
 *
 * Accounts: 0 deployer (also the deployment account), 1 payer,
 * 2 deployment, 3 system program, 4 and on extra accounts.
 */
module Deploy {
  import opened Wrappers
  import opened Schema
  import opened Errors
  import opened Accounts
  import opened Runtime

  /** The deploy payload must name an owner. */
  function CheckOwnerInstruction(dp: DeployV1): (r: Result<Bytes, ProgramError>)
    ensures r.Ok? <==> dp.owner.Some?
    ensures r.Ok? ==> r.value == dp.owner.value
    ensures r.Err? ==> r.error == Channel(InvalidInstructionNoOwnerGiven)
  {
    if dp.owner.Some? then Ok(dp.owner.value) else Err(Channel(InvalidInstructionNoOwnerGiven))
  }

  /** Account 0 signs, is writable and is the owner; it is still empty and system-owned; account 3 is the system program. */
  function CheckAccountsDeployment(env: Env, m: AccountMap, accounts: seq<AccountMeta>, owner: Bytes): (r: Result<(), ProgramError>)
    requires |accounts| >= 4 && Present(m, accounts)
    ensures r.Ok? <==>
      && accounts[0].isSigner && accounts[0].isWritable
      && accounts[1].isSigner && accounts[1].isWritable
      && accounts[0].key == owner
      && IsEmpty(m, accounts[0].key) && m[accounts[0].key].owner == env.systemProgram
      && accounts[3].key == env.systemProgram
    ensures r == Err(Channel(DeploymentAlreadyExists)) <==>
      && accounts[0].isSigner && accounts[0].isWritable
      && accounts[1].isSigner && accounts[1].isWritable
      && accounts[0].key == owner
      && !(IsEmpty(m, accounts[0].key) && m[accounts[0].key].owner == env.systemProgram)
    // which guard fails, in the order they run
    ensures !(accounts[0].isSigner && accounts[0].isWritable) ==> r == Err(Channel(InvalidDeployerAccount))
    ensures accounts[0].isSigner && accounts[0].isWritable && !(accounts[1].isSigner && accounts[1].isWritable) ==>
      r == Err(Channel(InvalidPayerAccount))
    ensures (accounts[0].isSigner && accounts[0].isWritable && accounts[1].isSigner && accounts[1].isWritable
             && accounts[0].key != owner) ==> r == Err(Channel(InvalidDeployerAccount))
    ensures (accounts[0].isSigner && accounts[0].isWritable && accounts[1].isSigner && accounts[1].isWritable
             && accounts[0].key == owner
             && IsEmpty(m, accounts[0].key) && m[accounts[0].key].owner == env.systemProgram
             && accounts[3].key != env.systemProgram) ==> r == Err(Channel(InvalidInstruction))
    ensures r.Err? ==> r.error in {Channel(InvalidDeployerAccount), Channel(InvalidPayerAccount),
                                   Channel(DeploymentAlreadyExists), Channel(InvalidInstruction)}
  {
    var deployer, payer, system := accounts[0], accounts[1], accounts[3];
    :- CheckWritableSigner(deployer, InvalidDeployerAccount);
    :- CheckWritableSigner(payer, InvalidPayerAccount);
    :- CheckBytesMatch(deployer.key, owner, InvalidDeployerAccount);
    // already implied by the first check, so InvalidDeploymentAccount is never returned
    if !deployer.isWritable then Err(Channel(InvalidDeploymentAccount))
    else
      :- Ensure0(m, deployer, DeploymentAlreadyExists);
      :- CheckOwner(m, deployer, env.systemProgram, DeploymentAlreadyExists);
      :- CheckKeyMatch(system, env.systemProgram, InvalidInstruction);
      Ok(())
  }

  /** Every check of a deploy instruction, in order; on success, the account the deployment is written to. */
  function DeployTarget(env: Env, m: AccountMap, accounts: seq<AccountMeta>, dp: DeployV1): (r: Result<Pubkey, ProgramError>)
    requires Present(m, accounts)
    ensures r.Ok? ==> |accounts| >= 5 && r.value == accounts[0].key
  {
    var owner :- CheckOwnerInstruction(dp);
    if |accounts| < 5 then Err(Panic)
    else
      var guarded :- CheckAccountsDeployment(env, m, accounts[..5], owner);
      if dp.imageId.None? then Err(Channel(InvalidInstructionNoImageIDGiven))
      else
        var bump :- CheckPda(env, DeploymentSeeds(env.imgIdHash(dp.imageId.value)), accounts[0].key, InvalidDeploymentAccountPDA);
        Ok(accounts[0].key)
  }

  /** process_deploy_v1 as a function of the accounts before it runs. */
  function DeploySpec(env: Env, m: AccountMap, accounts: seq<AccountMeta>, payload: Option<DeployV1>): (s: Step)
    requires Present(m, accounts)
    ensures payload.None? ==> s == Step(Err(Channel(InvalidInstruction)), m)
    ensures payload.Some? && payload.value.owner.None? ==> s == Step(Err(Channel(InvalidInstructionNoOwnerGiven)), m)
    ensures s.result.Err? ==> s.accounts == m
    // create-once: success writes the payload to a previously empty, system-owned account 0 at the derived address
    ensures s.result.Ok? ==>
      && payload.Some? && payload.value.imageId.Some?
      && |accounts| >= 5
      && accounts[0].isSigner && accounts[0].isWritable && accounts[1].isSigner && accounts[1].isWritable
      && payload.value.owner == Some(accounts[0].key)
      && IsEmpty(m, accounts[0].key) && m[accounts[0].key].owner == env.systemProgram
      && accounts[3].key == env.systemProgram
      && env.findProgramAddress(DeploymentSeeds(env.imgIdHash(payload.value.imageId.value))).0 == accounts[0].key
      && s.accounts == Written(m, accounts[0].key, env.programId, Deployment(payload.value))
    // the account guards run once the owner is known; their error is the handler's
    ensures payload.Some? && payload.value.owner.Some? && |accounts| < 5 ==> s == Step(Err(Panic), m)
    ensures payload.Some? && payload.value.owner.Some? && |accounts| >= 5
            && CheckAccountsDeployment(env, m, accounts[..5], payload.value.owner.value).Err? ==>
      s == Step(Err(CheckAccountsDeployment(env, m, accounts[..5], payload.value.owner.value).error), m)
    // once the guards pass, the image id decides: the derived address must be account 0, and then the deployment is written
    ensures payload.Some? && payload.value.owner.Some? && |accounts| >= 5
            && CheckAccountsDeployment(env, m, accounts[..5], payload.value.owner.value).Ok?
            && payload.value.imageId.Some? ==>
      s == if env.findProgramAddress(DeploymentSeeds(env.imgIdHash(payload.value.imageId.value))).0 == accounts[0].key
           then Step(Ok(()), Written(m, accounts[0].key, env.programId, Deployment(payload.value)))
           else Step(Err(Channel(InvalidDeploymentAccountPDA)), m)
    // a missing image id is reported only once every account guard has passed
    ensures payload.Some? && payload.value.imageId.None? && s.result.Err? ==>
      (s.result.error == Channel(InvalidInstructionNoImageIDGiven) <==>
        payload.value.owner.Some? && |accounts| >= 5 && CheckAccountsDeployment(env, m, accounts[..5], payload.value.owner.value).Ok?)
  {
    if payload.None? then Step(Err(Channel(InvalidInstruction)), m)
    else
      match DeployTarget(env, m, accounts, payload.value)
      case Err(e) => Step(Err(e), m)
      case Ok(key) => Step(Ok(()), Written(m, key, env.programId, Deployment(payload.value)))
  }

  /** process_deploy_v1. */
  method ProcessDeployV1(ledger: Ledger, env: Env, accounts: seq<AccountMeta>, payload: Option<DeployV1>)
    returns (r: Result<(), ProgramError>)
    requires Present(ledger.accounts, accounts)
    modifies ledger
    ensures Step(r, ledger.accounts) == DeploySpec(env, old(ledger.accounts), accounts, payload)
    ensures ledger.subCalls == old(ledger.subCalls)
  {
    if payload.None? {
      return Err(Channel(InvalidInstruction));
    }
    var dp := payload.value;
    var owner :- CheckOwnerInstruction(dp);
    if |accounts| < 5 {
      return Err(Panic);
    }
    var guarded :- CheckAccountsDeployment(env, ledger.accounts, accounts[..5], owner);
    if dp.imageId.Some? {
      var bump :- CheckPda(env, DeploymentSeeds(env.imgIdHash(dp.imageId.value)), accounts[0].key, InvalidDeploymentAccountPDA);
      ledger.SaveStructure(accounts[0].key, env.programId, Deployment(dp));
      return Ok(());
    }
    return Err(Channel(InvalidInstructionNoImageIDGiven));
  }
}
