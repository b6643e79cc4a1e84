/** The errors a request can end in, and the message each one carries. */
module Errors {

  datatype ApiError =
    | InvalidMethod(name: string)      // the name is in neither method list; raised before any request
    | InvalidSecret                      // the configured secret is not a string, so decoding it throws a `TypeError`
    | ExchangeError(message: string)     // the response listed at least one `E`-severity code
    | UnknownExchangeError               // the response listed errors, none of `E` severity
    | TransportError(reason: string)     // HTTP failure, timeout or unparsable body, passed through

  const UnknownErrorMessage: string := "The Kraken API returned an unknown error!"

  /** Stands for the `TypeError` text of the runtime, which is not part of this model. */
  const InvalidSecretMessage: string := "The secret is not a string"

  /** The `message` of the JavaScript `Error` thrown for each kind. */
  function Message(e: ApiError): (m: string)
    ensures e.InvalidMethod? ==> |e.name| <= |m| && m[..|e.name|] == e.name
    ensures e.InvalidMethod? ==> m == e.name + " is not a valid API method!"
    ensures e.UnknownExchangeError? ==> m == UnknownErrorMessage
    ensures e.ExchangeError? ==> m == e.message
  {
    match e
    case InvalidMethod(n) => n + " is not a valid API method!"
    case InvalidSecret => InvalidSecretMessage
    case ExchangeError(message) => message
    case UnknownExchangeError => UnknownErrorMessage
    case TransportError(reason) => reason
  }
}
