/** Failure-carrying results and the error taxonomy of the relying party
    (src/oic/oic/consumer.py). Each error names the exception the source
    raises, or the response it returns, at that point. */
module Common {

  datatype Option<+T> = None | Some(value: T)

  datatype Result<+T> = Ok(value: T) | Err(error: Error) {
    predicate IsFailure() {
      Err?
    }

    function PropagateFailure<U>(): Result<U>
      requires Err?
    {
      Err(error)
    }

    function Extract(): T
      requires Ok?
    {
      value
    }
  }

  datatype Outcome = Pass | Fail(error: Error)

  datatype Error =
    | BadRequest                  // callback with a method other than GET or POST
    | AuthzError(code: string)    // provider error in the authorization response
    | TokenError(code: string)    // provider error in a token or userinfo response
    | UnknownState(state: string) // callback state with no session in the store
    | KeyNotFound(key: string)    // a KeyError on the store or on a stored record
    | NotASession(key: string)    // the stored entry is a seed pointer, not a record
    | NoGrant(state: string)      // grant_from_state found nothing to attach a token to
    | NoClientAuth                // "Nothing to authenticate with"
    | ServerNotFound(uri: string) // the transport could not resolve the host
    | DiscoveryFailed(status: int)
    | RegistrationFailed(status: int)
    | NotJson                     // a body that json.loads / from_json rejects
    | TypeMismatch                // a TypeError on a JSON value of the wrong shape
    | IndexOutOfRange             // an IndexError on an empty JSON list or string
    | UnpackError                 // a ValueError from tuple unpacking
    | IOError                     // a file that cannot be written
    | RetriesExhausted            // every drawn request-file name was taken
    | HopLimit                    // the discovery hop bound was reached
}
