/**
 * The ledger the handlers run against: accounts keyed by address, each with a
 * lamport balance, an owning program and its data, and the primitive effects
 * the program's utilities perform on them (transfer lamports, close an
 * execution account, create or write a program-owned account, invoke another
 * program).
 */
module Accounts {
  import opened Wrappers
  import opened Schema
  import opened Errors

  /** What an account's data decodes to. `Empty` has length zero; `Zeroed` is freshly allocated space. */
  datatype Data =
    | Empty
    | Zeroed
    | ExecutionRequest(request: ExecutionRequestV1)
    | Deployment(deployment: DeployV1)
    | InputSetData(inputSet: InputSetV1)
    | ClaimState(claim: ClaimStateV1)
    | Closed(code: CloseCode)
    | Other(bytes: Bytes)

  /** The byte recorded when an execution account is closed: a settlement exit code or, on claim expiry, an error code. */
  datatype CloseCode = Exit(exit: ExitCode) | ErrorCode(error: ChannelError)

  datatype Account = Account(lamports: nat, owner: Pubkey, data: Data)

  /** An entry of an instruction's account list: the address and the per-transaction flags. */
  datatype AccountMeta = AccountMeta(key: Pubkey, isSigner: bool, isWritable: bool)

  type AccountMap = map<Pubkey, Account>

  /** Seed tuples from which program-derived addresses are computed. */
  datatype Seeds =
    | ExecutionSeeds(requester: Pubkey, executionId: string)
    | ClaimSeeds(execution: Pubkey)
    | DeploymentSeeds(imageHash: Bytes)

  datatype Instruction = Instruction(programId: Pubkey, accounts: seq<AccountMeta>, data: Bytes)

  /** A cross-program invocation signed by the derived authority `signerSeeds` with `bump`. */
  datatype Invocation = Invocation(instruction: Instruction, accountInfos: seq<Pubkey>, signerSeeds: Seeds, bump: Byte)

  /** The result of running some steps of a handler, with the accounts as those steps left them. */
  datatype Step = Step(result: Result<(), ProgramError>, accounts: AccountMap)

  /** The runtime supplies an account for every entry of the instruction's account list. */
  predicate Present(m: AccountMap, metas: seq<AccountMeta>)
  {
    forall i | 0 <= i < |metas| :: metas[i].key in m
  }

  /** The lamports held by all accounts together. */
  ghost function Total(m: AccountMap): nat
    decreases |m|
  {
    if |m| == 0 then 0
    else
      var k :| k in m;
      assert |m - {k}| < |m| by { assert (m - {k}).Keys == m.Keys - {k}; }
      m[k].lamports + Total(m - {k})
  }

  /** Some account whose balance `Total` counts first. */
  lemma TotalPick(m: AccountMap) returns (j: Pubkey)
    requires |m| > 0
    ensures j in m && Total(m) == m[j].lamports + Total(m - {j})
  {
    j :| j in m && Total(m) == m[j].lamports + Total(m - {j});
  }

  lemma {:induction false} TotalRemove(m: AccountMap, k: Pubkey)
    requires k in m
    ensures Total(m) == m[k].lamports + Total(m - {k})
    decreases |m|
  {
    var j := TotalPick(m);
    if j != k {
      assert (m - {j}).Keys == m.Keys - {j};
      assert (m - {k}).Keys == m.Keys - {k};
      TotalRemove(m - {j}, k);
      TotalRemove(m - {k}, j);
      assert m - {j} - {k} == m - {k} - {j};
    }
  }

  /** Replacing one account changes the total by the difference of its balances. */
  lemma TotalUpdate(m: AccountMap, k: Pubkey, a: Account)
    requires k in m
    ensures Total(m[k := a]) + m[k].lamports == Total(m) + a.lamports
  {
    TotalRemove(m, k);
    TotalRemove(m[k := a], k);
    assert m[k := a] - {k} == m - {k};
  }

  /** `n` lamports leave `from` and arrive at `to`. */
  function Moved(m: AccountMap, from: Pubkey, to: Pubkey, n: nat): (r: AccountMap)
    requires from in m && to in m && n <= m[from].lamports
    ensures r.Keys == m.Keys
    ensures Total(r) == Total(m)
    ensures from != to ==> r[from].lamports + n == m[from].lamports && r[to].lamports == m[to].lamports + n
    ensures from == to ==> r == m
    ensures forall k | k in m :: r[k].owner == m[k].owner && r[k].data == m[k].data
    ensures forall k | k in m && k != from && k != to :: r[k] == m[k]
  {
    var debited := m[from := m[from].(lamports := m[from].lamports - n)];
    var credited := debited[to := debited[to].(lamports := debited[to].lamports + n)];
    TotalUpdate(m, from, debited[from]);
    TotalUpdate(debited, to, credited[to]);
    assert from == to ==> credited == m;
    credited
  }

  /** transfer_owned, transfer_unowned and payout_tip: move `n` lamports, failing when `from` cannot cover them. */
  function Transfer(m: AccountMap, from: Pubkey, to: Pubkey, n: nat): (s: Step)
    requires from in m && to in m
    ensures s.result.Ok? <==> n <= m[from].lamports
    ensures s.result.Err? ==> s == Step(Err(InsufficientFunds), m)
    ensures s.result.Ok? ==> s.accounts == Moved(m, from, to, n)
  {
    if n <= m[from].lamports then Step(Ok(()), Moved(m, from, to, n))
    else Step(Err(InsufficientFunds), m)
  }

  /**
   * cleanup_execution_account: the whole balance of `account` goes to
   * `target` and the account records `code`.
   */
  function CloseAccount(m: AccountMap, account: Pubkey, target: Pubkey, code: CloseCode): (r: AccountMap)
    requires account in m && target in m
    ensures r.Keys == m.Keys
    ensures Total(r) == Total(m)
    ensures r[account].data == Closed(code) && r[account].owner == m[account].owner
    ensures account != target ==> r[account].lamports == 0 && r[target] == m[target].(lamports := m[target].lamports + m[account].lamports)
    // closing an account to itself keeps its balance
    ensures account == target ==> r[account].lamports == m[account].lamports
    ensures forall k | k in m && k != account && k != target :: r[k] == m[k]
  {
    var emptied := m[account := Account(0, m[account].owner, Closed(code))];
    var refunded := emptied[target := emptied[target].(lamports := emptied[target].lamports + m[account].lamports)];
    TotalUpdate(m, account, emptied[account]);
    TotalUpdate(emptied, target, refunded[target]);
    refunded
  }

  /** create_program_account, save_structure and save_claim: set an account's owner and data, keeping its lamports. */
  function Written(m: AccountMap, key: Pubkey, owner: Pubkey, data: Data): (r: AccountMap)
    requires key in m
    ensures r.Keys == m.Keys
    ensures Total(r) == Total(m)
    ensures r[key] == Account(m[key].lamports, owner, data)
    ensures forall k | k in m && k != key :: r[k] == m[k]
  {
    TotalUpdate(m, key, Account(m[key].lamports, owner, data));
    m[key := Account(m[key].lamports, owner, data)]
  }

  /**
   * The accounts of one transaction as the handlers see and change them, and
   * the cross-program invocations made so far.
   */
  class Ledger {
    var accounts: AccountMap
    var subCalls: seq<Invocation>

    constructor (initial: AccountMap)
      ensures accounts == initial && subCalls == []
    {
      accounts := initial;
      subCalls := [];
    }

    method TransferLamports(from: Pubkey, to: Pubkey, amount: nat) returns (r: Result<(), ProgramError>)
      requires from in accounts && to in accounts
      modifies this
      ensures Step(r, accounts) == Transfer(old(accounts), from, to, amount)
      ensures subCalls == old(subCalls)
    {
      if accounts[from].lamports < amount {
        return Err(InsufficientFunds);
      }
      accounts := Moved(accounts, from, to, amount);
      return Ok(());
    }

    method CleanupExecutionAccount(execution: Pubkey, target: Pubkey, code: CloseCode)
      requires execution in accounts && target in accounts
      modifies this
      ensures accounts == CloseAccount(old(accounts), execution, target, code)
      ensures subCalls == old(subCalls)
    {
      accounts := CloseAccount(accounts, execution, target, code);
    }

    /** Allocates `key` as a zero-filled account owned by `programId`. */
    method CreateProgramAccount(key: Pubkey, programId: Pubkey)
      requires key in accounts
      modifies this
      ensures accounts == Written(old(accounts), key, programId, Zeroed)
      ensures subCalls == old(subCalls)
    {
      accounts := Written(accounts, key, programId, Zeroed);
    }

    /** Creates `key` owned by `programId` holding `data`. */
    method SaveStructure(key: Pubkey, programId: Pubkey, data: Data)
      requires key in accounts
      modifies this
      ensures accounts == Written(old(accounts), key, programId, data)
      ensures subCalls == old(subCalls)
    {
      accounts := Written(accounts, key, programId, data);
    }

    method SaveClaim(key: Pubkey, claim: ClaimStateV1)
      requires key in accounts
      modifies this
      ensures accounts == Written(old(accounts), key, old(accounts)[key].owner, ClaimState(claim))
      ensures subCalls == old(subCalls)
    {
      accounts := Written(accounts, key, accounts[key].owner, ClaimState(claim));
    }

    /** Records a cross-program invocation; what the callee does is not modelled. */
    method InvokeSigned(call: Invocation)
      modifies this
      ensures accounts == old(accounts)
      ensures subCalls == old(subCalls) + [call]
    {
      subCalls := subCalls + [call];
    }

    /** The runtime's rollback of a failed transaction. */
    method Restore(saved: AccountMap, savedCalls: seq<Invocation>)
      modifies this
      ensures accounts == saved && subCalls == savedCalls
    {
      accounts := saved;
      subCalls := savedCalls;
    }
  }
}
