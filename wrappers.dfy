/** Option, Result and Outcome, and the exceptions the modelled Python code can raise. */
module Wrappers {

  datatype Option<+T> = None | Some(value: T)

  /** The exceptions raised (and not caught) by the modelled code. */
  datatype Error =
    | TypeError                          // an operator or subscript applied to the wrong kind of value
    | KeyError(key: string)              // a missing dictionary key
    | AttributeError                     // `.get` called on something that is not a dict
    | DecodeError                        // json.load / the text decoder rejected the bytes
    | StructError                        // struct.pack(">H", n) with n > 65535
    | MissingHeader(name: string)        // ValueError: Missing required header
    | UnsupportedContentType(contentType: string) // ValueError: Unsupported content-type
    | InvalidEventsMode(mode: string)    // ValueError: Invalid events mask mode
    | SendFailed                         // selector.modify raised inside send_json

  /** A value, or the exception raised instead of producing it. */
  datatype Result<+T> = Ok(value: T) | Err(error: Error)

  /** Normal completion, or the exception that escaped. */
  datatype Outcome = Pass | Fail(error: Error)
}
