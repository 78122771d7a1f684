/** The program's error codes and the ways a handler can fail. */
module Errors {

  datatype ChannelError =
    | InvalidInstruction
    | InvalidInstructionNoOwnerGiven
    | InvalidInstructionNoImageIDGiven
    | InvalidDeployerAccount
    | InvalidPayerAccount
    | InvalidDeploymentAccount
    | InvalidDeploymentAccountPDA
    | DeploymentAlreadyExists
    | InvalidRequesterAccount
    | InvalidExecutionAccount
    | InvalidExecutionAccountOwner
    | InvalidExecutionAccountData
    | InvalidExecutionId
    | InvalidCallbackAccount
    | InvalidCallbackProgram
    | InvalidCallbackExtraAccounts
    | InvalidClaimerAccount
    | InvalidClaimAccount
    | InvalidInputs
    | InvalidInputType
    | InputsDontMatch
    | MaxBlockHeightRequired
    | InputDigestRequired
    | InsufficientStake
    | ActiveClaimExists
    | ExecutionExpired
    | CannotBorrowData

  /**
   * A failed instruction: one of the program's own errors, a panic (an index
   * out of range or an `unwrap` of nothing), or a lamport transfer the source
   * account cannot cover.
   */
  datatype ProgramError = Channel(code: ChannelError) | Panic | InsufficientFunds
}
