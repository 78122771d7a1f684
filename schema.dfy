/**
 * The decoded flat-buffer records the program reads and writes. Decoding is
 * not modelled: a payload is either absent or one of these records, and a
 * record written to an account is read back unchanged.
 */
module Schema {
  import opened Wrappers

  /** One byte of a payload or an account key. */
  type Byte = b: int | 0 <= b < 256

  type Bytes = seq<Byte>

  /** An account address (32 bytes on chain; the length is not enforced here). */
  type Pubkey = Bytes

  /** Only the two kinds of input the program treats specially are told apart. */
  datatype InputType = InputSet | PrivateLocal | OtherInput(tag: nat)

  datatype Input = Input(inputType: InputType, data: Option<Bytes>)

  /** An extra account the callback expects; `writable` is the stored byte flag. */
  datatype CallbackAccount = CallbackAccount(pubkey: Pubkey, writable: Byte)

  /** An execution request, as submitted for admission and as stored in the execution account. */
  datatype ExecutionRequestV1 = ExecutionRequestV1(
    executionId: Option<string>,
    imageId: Option<string>,
    tip: nat,
    maxBlockHeight: nat,
    verifyInputHash: bool,
    inputDigest: Option<Bytes>,
    input: Option<seq<Input>>,
    callbackProgramId: Option<Bytes>,
    callbackInstructionPrefix: Option<Bytes>,
    callbackExtraAccounts: Option<seq<CallbackAccount>>,
    forwardOutput: bool,
    proverVersion: nat)

  /** A status report submitted for settlement. */
  datatype StatusV1 = StatusV1(
    executionId: Option<string>,
    proof: Option<Bytes>,
    executionDigest: Option<Bytes>,
    inputDigest: Option<Bytes>,
    assumptionDigest: Option<Bytes>,
    committedOutputs: Option<Bytes>,
    exitCodeSystem: nat,
    exitCodeUser: nat)

  /** A claim payload: the execution to claim and the caller's block commitment. */
  datatype ClaimV1 = ClaimV1(executionId: Option<string>, blockCommitment: nat)

  /** A deployment payload, also the record stored in a deployment account. */
  datatype DeployV1 = DeployV1(owner: Option<Bytes>, imageId: Option<string>, inputs: Option<seq<InputType>>)

  /** An input-set record held by an auxiliary account. */
  datatype InputSetV1 = InputSetV1(inputs: Option<seq<Input>>)

  /** The claim record: who holds the claim, the slot it was taken at, and the caller-supplied commitment. */
  datatype ClaimStateV1 = ClaimStateV1(claimer: Pubkey, claimedAt: nat, blockCommitment: nat)

  /** Outcome codes recorded when an execution account is closed by settlement. */
  datatype ExitCode = Success | VerifyError | ProvingError

  /** Prover versions: only 1.0.1 has a verifier. */
  datatype ProverVersion = Version1_0_1 | OtherVersion(tag: nat)
}
