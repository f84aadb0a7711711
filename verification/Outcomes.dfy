/** Results of contract operations. A failed `check` aborts the whole action, so every
    operation yields either its value or the reason it aborted. */
module Outcomes {

  datatype Option<+T> = None | Some(value: T)

  /** One constructor for each `check` of the modelled code, and one for each trap. */
  datatype Abort =
    | MustBePositive
    | MustDepositFirst
    | InsufficientFunds
    | RexNotInitialized
    | NoRexBalance
    | InsufficientRex
    | NegligibleProceeds
    | B1MustNotQueue
    | OrdersExceedMatured
    | NoOrder
    | OrderAlreadyFilled
    | LoansUnavailable
    | LoanPriceUnfavourable
    | LoanNotFound
    | NotLoanCreator
    | LoanExpired
    | InsufficientLoanBalance
    | RexRemaining
    | VotingRequirementUnmet
    | EmptyLendablePool
    | NegativeUnlent
    | SavingsLogicError
    | SavingsProgrammerError
    | DivisionByZero
    | NoTokenBalance
    | OverdrawnBalance
    | TransferToSelf
    | ExceedsMaxSupply
    | ResourceRowMissing
    | NoResourceRow
    | InsufficientRam
    | NegativeNetTotal
    | NegativeCpuTotal
    | NegativeNetStake
    | NegativeCpuStake
    | NoDelegation
    | ZeroStake
    | OppositeSigns
    | SelfTransferStake
    | NegativeNetRefund
    | NegativeCpuRefund
    | NoRefund
    | RefundTooEarly
    | ChainNotActivated
    | NoVoter
    | NegativeVotingStake
    | B1Vesting
    | TooManyProducers
    | ProducersNotSorted
    | ProducerInactive
    | ProducerNotRegistered
    | ProducersMayNotVote
    | StakeTooSmall
    | ClaimTooEarly
    | NoRewards
    | NoOracle
    | NoOracleFound

  datatype Result<+T> = Success(value: T) | Failure(error: Abort) {

    predicate IsFailure() {
      Failure?
    }

    function PropagateFailure<U>(): Result<U>
      requires Failure?
    {
      Failure(error)
    }

    function Extract(): T
      requires Success?
    {
      value
    }
  }

  /** What `Need` yields: nothing, or the reason to abort. */
  datatype Guard = Pass | Stop(error: Abort) {

    predicate IsFailure() {
      Stop?
    }

    function PropagateFailure<U>(): Result<U>
      requires Stop?
    {
      Failure(error)
    }
  }

  /** The contracts' `check( condition, message )`. */
  function Need(condition: bool, error: Abort): Guard {
    if condition then Pass else Stop(error)
  }

  /** The checks that the source takes for impossible to fail: "logic error", "programmer error",
      "should never happen", and the divisions nothing guards. */
  predicate Internal(e: Abort) {
    e == EmptyLendablePool || e == NegativeUnlent || e == SavingsLogicError || e == SavingsProgrammerError
    || e == DivisionByZero || e == ResourceRowMissing || e == NegativeNetTotal || e == NegativeCpuTotal
    || e == NegativeNetRefund || e == NegativeCpuRefund
  }
}
