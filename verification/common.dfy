/** Small vocabulary shared by the other modules. */
module Common {

  datatype Option<+T> = None | Some(value: T)

  /** An octet: file contents and lock keys are sequences of octets. */
  type byte = b: int | 0 <= b < 256

  type Bytes = seq<byte>

  /** How one database statement ended, as the code that issued it sees things.
      `Lost` is a statement the server carried out although its caller was told it had failed
      (a time-out or a broken connection after the statement was sent). */
  datatype Outcome = Done | Refused | Lost {
    predicate Applied() {
      Done? || Lost?
    }

    predicate Ok() {
      Done?
    }
  }
}
