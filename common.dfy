/** Failure-compatible wrappers and the error vocabulary of the banking services. */
module Common {

  /** A value that may be absent: the model of a Java reference that may be null. */
  datatype Option<+T> = None | Some(value: T)

  /** The outcome of a service call: a value, or the error the service throws. */
  datatype Result<+T> = Success(value: T) | Failure(error: Error)

  /** Each `RuntimeException` the core services throw, one constructor per message. */
  datatype Error =
    | SourceAccountNotFound
    | DestinationAccountNotFound
    | AccountNotFound
    | InsufficientBalance
    | UserNotFound
    | EmailTaken
    | PanTaken
    | AadharTaken
      /** Model-only: every drawn account-number candidate was already taken. */
    | NoFreshAccountNumber

  /** The exception message the source attaches to each error. */
  function Message(e: Error): string
  {
    match e
    case SourceAccountNotFound => "Source account not found"
    case DestinationAccountNotFound => "Destination account not found"
    case AccountNotFound => "Account not found"
    case InsufficientBalance => "Insufficient balance"
    case UserNotFound => "User not found"
    case EmailTaken => "Error: Email is already taken!"
    case PanTaken => "Error: PAN number is already registered!"
    case AadharTaken => "Error: Aadhar number is already registered!"
    case NoFreshAccountNumber => "No fresh account number"
  }

  /** The flattened error string is all a client sees, and it still tells every error apart. */
  lemma MessageInjective(e: Error, f: Error)
    ensures Message(e) == Message(f) <==> e == f
  {
  }
}
