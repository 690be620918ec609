/** Failure-carrying values shared by the card service and the report service.
    Each `Error` stands for one exception kind the Java services throw. */
module Outcomes {

  /** A value that the Java code may leave `null`. */
  datatype Option<+T> = None | Some(value: T)

  datatype Error =
    | InvalidArgument       // IllegalArgumentException from checkMemberExists
    | NotFound              // NoSuchElementException (member, card or transactions missing)
    | AlreadyExists         // ObjectAlreadyExistsException from create
    | GatewayFault          // any exception thrown by the payment gateway
    | NumberFormat          // NumberFormatException from Integer.valueOf
    | ConstraintViolation   // the transaction store refused a record (null column, duplicate key)

  datatype Result<+T> = Ok(value: T) | Err(error: Error)

  /** The result of a check that returns nothing or throws. */
  datatype Outcome = Pass | Fail(error: Error)
}
