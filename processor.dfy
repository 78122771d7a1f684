/**
 * Transactions: an instruction runs one handler atomically. When the handler
 * returns an error the runtime discards everything it did, so the accounts
 * and the invocations it made are as before.
 */
module Processor {
  import opened Wrappers
  import opened Schema
  import opened Errors
  import opened Accounts
  import opened Runtime
  import Deploy
  import Execute
  import Claim
  import Status

  /** A decoded channel instruction: which handler runs, and its payload if one decoded. */
  datatype ChannelInstruction =
    | DeployV1Ix(deploy: Option<DeployV1>)
    | ExecuteV1Ix(execute: Option<ExecutionRequestV1>)
    | ClaimV1Ix(claim: Option<ClaimV1>)
    | StatusV1Ix(status: Option<StatusV1>)

  /** What a handler does, as written, before the runtime commits or discards it. */
  datatype Effect = Effect(step: Step, calls: seq<Invocation>)

  function HandlerSpec(env: Env, m: AccountMap, accounts: seq<AccountMeta>, ix: ChannelInstruction, slot: nat): (e: Effect)
    requires Present(m, accounts)
    ensures e.step.accounts.Keys == m.Keys && Total(e.step.accounts) == Total(m)
  {
    match ix
    case DeployV1Ix(p) => Effect(Deploy.DeploySpec(env, m, accounts, p), [])
    case ExecuteV1Ix(p) => Effect(Execute.ExecuteSpec(env, m, accounts, p), [])
    case ClaimV1Ix(p) => Effect(Claim.ClaimSpec(env, m, accounts, p, slot), [])
    case StatusV1Ix(p) =>
      var s := Status.StatusSpec(env, m, accounts, p, slot);
      Effect(s.step, s.calls)
  }

  /**
   * The accounts after the transaction: the handler's effects when it
   * succeeds, the accounts it started from when it fails. No instruction
   * creates or destroys lamports.
   */
  function Committed(env: Env, m: AccountMap, accounts: seq<AccountMeta>, ix: ChannelInstruction, slot: nat): (c: AccountMap)
    requires Present(m, accounts)
    ensures c.Keys == m.Keys && Total(c) == Total(m)
    ensures HandlerSpec(env, m, accounts, ix, slot).step.result.Err? ==> c == m
  {
    var e := HandlerSpec(env, m, accounts, ix, slot);
    if e.step.result.Ok? then e.step.accounts else m
  }

  /** One instruction as a transaction: dispatch to its handler and roll back on error. */
  method RunInstruction(ledger: Ledger, env: Env, accounts: seq<AccountMeta>, ix: ChannelInstruction, slot: nat)
    returns (r: Result<(), ProgramError>)
    requires Present(ledger.accounts, accounts)
    modifies ledger
    ensures r == HandlerSpec(env, old(ledger.accounts), accounts, ix, slot).step.result
    ensures ledger.accounts == Committed(env, old(ledger.accounts), accounts, ix, slot)
    ensures r.Ok? ==> ledger.subCalls == old(ledger.subCalls) + HandlerSpec(env, old(ledger.accounts), accounts, ix, slot).calls
    ensures r.Err? ==> ledger.subCalls == old(ledger.subCalls)
  {
    var savedAccounts, savedCalls := ledger.accounts, ledger.subCalls;
    match ix {
      case DeployV1Ix(p) =>
        r := Deploy.ProcessDeployV1(ledger, env, accounts, p);
      case ExecuteV1Ix(p) =>
        r := Execute.ProcessExecuteV1(ledger, env, accounts, p);
      case ClaimV1Ix(p) =>
        r := Claim.ProcessClaimV1(ledger, env, accounts, p, slot);
      case StatusV1Ix(p) =>
        r := Status.ProcessStatusV1(ledger, env, accounts, p, slot);
    }
    if r.Err? {
      ledger.Restore(savedAccounts, savedCalls);
    }
  }

  /**
   * A takeover refused with ActiveClaimExists leaves no trace: the stake the
   * handler had already refunded to the challenger is taken back by the
   * rollback, so the claim account keeps it.
   */
  lemma ActiveClaimRollsBack(env: Env, m: AccountMap, accounts: seq<AccountMeta>, payload: Option<ClaimV1>, slot: nat)
    requires Present(m, accounts) && Claim.Admitted(env, m, accounts, payload, slot) && Claim.Distinct(accounts)
    requires slot <= m[accounts[0].key].data.request.maxBlockHeight
    requires m[accounts[2].key].owner == env.programId && m[accounts[2].key].data.ClaimState?
    requires slot <= m[accounts[2].key].data.claim.blockCommitment
    requires m[accounts[2].key].lamports >= Claim.Stake(m[accounts[0].key].data.request.tip)
    ensures HandlerSpec(env, m, accounts, ClaimV1Ix(payload), slot).step.result == Err(Channel(ActiveClaimExists))
    ensures Committed(env, m, accounts, ClaimV1Ix(payload), slot) == m
  {
    Claim.ActiveClaimBlocksTakeover(env, m, accounts, payload, slot);
  }

  /** Create-once: after a deployment has been written, no deploy instruction naming the same account 0 succeeds. */
  lemma {:induction false} DeployOnce(env: Env, m: AccountMap, accounts: seq<AccountMeta>, payload: Option<DeployV1>,
                                      accounts': seq<AccountMeta>, payload': Option<DeployV1>, slot: nat)
    requires Present(m, accounts) && Present(m, accounts')
    requires |accounts| >= 1 && |accounts'| >= 1 && accounts'[0].key == accounts[0].key
    requires HandlerSpec(env, m, accounts, DeployV1Ix(payload), slot).step.result.Ok?
    ensures var after := Committed(env, m, accounts, DeployV1Ix(payload), slot);
      Present(after, accounts') && HandlerSpec(env, after, accounts', DeployV1Ix(payload'), slot).step.result.Err?
  {
    var after := Committed(env, m, accounts, DeployV1Ix(payload), slot);
    assert after[accounts[0].key].data.Deployment?;
    assert Present(after, accounts') by {
      assert after.Keys == m.Keys;
    }
  }

  /** Settle-once: after a status has settled an execution, no status naming the same execution account succeeds. */
  lemma {:induction false} SettleOnce(env: Env, m: AccountMap, accounts: seq<AccountMeta>, payload: Option<StatusV1>,
                                      accounts': seq<AccountMeta>, payload': Option<StatusV1>, slot: nat, slot': nat)
    requires Present(m, accounts) && Present(m, accounts')
    requires |accounts| >= 2 && |accounts'| >= 2 && accounts'[1].key == accounts[1].key
    requires HandlerSpec(env, m, accounts, StatusV1Ix(payload), slot).step.result.Ok?
    ensures var after := Committed(env, m, accounts, StatusV1Ix(payload), slot);
      Present(after, accounts') && HandlerSpec(env, after, accounts', StatusV1Ix(payload'), slot').step.result.Err?
  {
    var after := Committed(env, m, accounts, StatusV1Ix(payload), slot);
    assert after[accounts[1].key].data.Closed?;
    assert Present(after, accounts') by {
      assert after.Keys == m.Keys;
    }
    assert !Status.Located(env, after, accounts', payload');
  }
}
