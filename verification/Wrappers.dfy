/** The small datatypes that every other module uses. */
module Wrappers {

  datatype Option<+T> = None | Some(value: T)

  datatype Result<+T, +E> = Ok(value: T) | Err(error: E)

  /** How often something has happened in a run, as far as "at most once" needs to know. */
  datatype Times = Never | Once | More {
    function Inc(): Times {
      if Never? then Once else More
    }
  }
}
