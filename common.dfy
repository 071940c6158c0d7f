/** Small value types shared by the modules of the model. */
module Common {

  /** A JavaScript value that may be `null`, or a Rust `Option`. */
  datatype Option<T> = None | Some(value: T)

  /** What a call into code outside the model answered: the value it returned,
      or the message of the exception it threw. Wallet-extension calls, Horizon
      requests and browser APIs all reach the model in this form. */
  datatype External<T> = Returned(value: T) | Threw(message: string)

  /** The settled state of a promise the model produces: a value, or a
      rejection carrying the error's message. */
  datatype Result<T> = Ok(value: T) | Err(message: string)

  function Min(a: int, b: int): (m: int)
    ensures m <= a && m <= b && (m == a || m == b)
  {
    if a <= b then a else b
  }
}
