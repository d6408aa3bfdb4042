/** The enumerations of the C binding that the other modules share. */
module Types {

  datatype JState =
    | UNDETERMINED | QUEUED | QUEUED_HELD | RUNNING | SUSPENDED
    | REQUEUED | REQUEUED_HELD | DONE | FAILED

  datatype Error =
    | SUCCESS | TIMEOUT | INVALID_ARGUMENT | INVALID_SESSION | INVALID_STATE | UNSUPPORTED_ATTRIBUTE

  /** The number that stands for a state in the database. */
  function StateCode(s: JState): nat {
    match s
    case UNDETERMINED => 0
    case QUEUED => 1
    case QUEUED_HELD => 2
    case RUNNING => 3
    case SUSPENDED => 4
    case REQUEUED => 5
    case REQUEUED_HELD => 6
    case DONE => 7
    case FAILED => 8
  }

  predicate Terminal(s: JState) {
    s == DONE || s == FAILED
  }
}
