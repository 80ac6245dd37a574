/**
 * Values shared by the whole client model: optional values, the errors the
 * client raises or lets through, results that carry either a value or one of
 * those errors, and the unit of the model's clock.
 */
module Common {

  /** Python's `None` or a present value. */
  datatype Option<T> = None | Some(value: T)

  /** The exceptions that can leave an operation of the client. */
  datatype Error =
    | JwtNotGenerated        // AuthManagerExceptions.JWTNotGenerated
    | AuthExchangeError      // raised by the username/password token exchange
    | CredentialsReadError   // raised while reading the credentials file
    | TransportError         // raised while sending a request

  /** The outcome of an operation that returns a value or raises. */
  datatype Result<T> = Ok(value: T) | Err(error: Error)

  /** The outcome of an operation that returns nothing or raises. */
  datatype Outcome = Done | Raised(error: Error)

  /** Clock readings are whole milliseconds. */
  const MsPerSecond := 1000
}
