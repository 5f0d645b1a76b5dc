/** Values that may be absent, and promises as an observer of the run sees them. */
module Wrappers {

  datatype Option<+T> = None | Some(value: T)

  /** Why a promise was rejected; a wallet refusal by the user is told apart from everything else. */
  datatype Failure = Failure(byUser: bool, message: string)

  /** An awaited promise: answered, rejected, or not settled while the run is watched. */
  datatype Await<+T> = Resolved(value: T) | Rejected(error: Failure) | Unsettled
}
