/**
 * What the handlers take from their surroundings without modelling it: the
 * well-known program addresses, program-derived address search, image-id
 * hashing, prover-version parsing and the RISC Zero verifier, together with
 * the account guards of the program's assertions.
 */
module Runtime {
  import opened Wrappers
  import opened Schema
  import opened Errors
  import opened Accounts

  /** Everything the verifier of a version 1.0.1 proof is given. */
  datatype Risc0Query = Risc0Query(
    imageId: string,
    executionDigest: Bytes,
    inputDigest: Bytes,
    committedOutputs: Bytes,
    assumptionDigest: Bytes,
    exitCodeSystem: nat,
    exitCodeUser: nat,
    proof: Bytes)

  /**
   * The program's environment. Each function-valued field is an uninterpreted
   * collaborator: `findProgramAddress` returns the derived address and bump of
   * a seed tuple, `imgIdHash` hashes an image id, `parseProverVersion` is the
   * version's `try_from`, and `verifyRisc0` stands for building the output
   * digest and proof inputs and checking the proof (its `Err` covers a failure
   * of either step).
   */
  datatype Env = Env(
    programId: Pubkey,
    systemProgram: Pubkey,
    bpfLoaderUpgradeable: Pubkey,
    findProgramAddress: Seeds -> (Pubkey, Byte),
    imgIdHash: string -> Bytes,
    parseProverVersion: nat -> Option<ProverVersion>,
    defaultProverVersion: ProverVersion,
    verifyRisc0: Risc0Query -> Result<bool, ProgramError>)

  /** Indexing the account list; out of range panics. */
  function Nth(accounts: seq<AccountMeta>, i: nat): Result<AccountMeta, ProgramError>
  {
    if i < |accounts| then Ok(accounts[i]) else Err(Panic)
  }

  function Need(condition: bool, error: ChannelError): Outcome<ProgramError>
  {
    if condition then Pass else Fail(Channel(error))
  }

  function CheckWritableSigner(a: AccountMeta, error: ChannelError): Outcome<ProgramError>
  {
    Need(a.isSigner && a.isWritable, error)
  }

  function CheckWriteable(a: AccountMeta, error: ChannelError): Outcome<ProgramError>
  {
    Need(a.isWritable, error)
  }

  function CheckOwner(m: AccountMap, a: AccountMeta, owner: Pubkey, error: ChannelError): Outcome<ProgramError>
    requires a.key in m
  {
    Need(m[a.key].owner == owner, error)
  }

  function CheckKeyMatch(a: AccountMeta, key: Pubkey, error: ChannelError): Outcome<ProgramError>
  {
    Need(a.key == key, error)
  }

  function CheckBytesMatch(x: Bytes, y: Bytes, error: ChannelError): Outcome<ProgramError>
  {
    Need(x == y, error)
  }

  /** The account holds no lamports and no data. */
  predicate IsEmpty(m: AccountMap, key: Pubkey)
    requires key in m
  {
    m[key].lamports == 0 && m[key].data.Empty?
  }

  function Ensure0(m: AccountMap, a: AccountMeta, error: ChannelError): Outcome<ProgramError>
    requires a.key in m
  {
    Need(IsEmpty(m, a.key), error)
  }

  /** The seeds derive `key`; the bump found is returned. */
  function CheckPda(env: Env, seeds: Seeds, key: Pubkey, error: ChannelError): Result<Byte, ProgramError>
  {
    var (address, bump) := env.findProgramAddress(seeds);
    if address == key then Ok(bump) else Err(Channel(error))
  }
}
