# kraken-api client core, modelled in Dafny

This project models the decision logic of the `KrakenAPI` client in
`kraken-api.js`. The client is a thin wrapper around an HTTP library and
Node's crypto module. Its own logic, modelled here as total functions over
strings, sequences and finite maps, is:

- **Method router** (`request`): a method name is checked against two fixed
  lists. The public list is checked first, then the private list. Any other
  name is rejected before a request is built.
- **Request preparation** (`publicAPIRequest`, `privateAPIRequest`): the
  path `/<version>/<public|private>/<name>` and the URL are built. For a
  private call, `nonce` is injected, and `otp` too when the configuration
  defines one. The signature is computed over the very parameter object
  whose form encoding is sent as the body.
- **Configuration** (the constructor): a bare string stands for `{ otp }`.
  The result is `Object.assign({ key, secret }, defaults, options)`.
- **Error normalisation** (the part of `rawRequest` after decoding):
  - a response with no errors, or an empty error list, is handed back whole;
  - otherwise the `E`-severity entries, with their first letter removed, are
    joined with `", "` into the failure message;
  - if there are no such entries, the fixed "unknown error" is raised.

Modules, one per concern:

| file | module | contents |
|---|---|---|
| wrappers.dfy | `Wrappers` | `Option`, `Result` |
| js_values.dfy | `JsValues` | JavaScript values, property reads, string conversion of numbers |
| errors.dfy | `Errors` | the error kinds and their messages |
| methods.dfy | `Methods` | the two method lists and the router |
| config.dfy | `Config` | defaults, constructor options, `Object.assign` |
| responses.dfy | `Responses` | error filtering, joining, normalisation |
| signing.dfy | `Signing` | how the signature is composed from foreign primitives |
| client.dfy | `Client` | path/URL, private parameters, request preparation, the whole call |

Plain objects are `map<string, Value>`. Reading a missing property gives
`Undefined`, as in JavaScript. Several parts of the client cannot be
computed here, so they enter as parameters:

- SHA-256, HMAC-SHA512, base64 and the `qs` form encoder are fields of a
  `Crypto` record. One `stringify` function serves both signing and sending.
- The network round trip is a function `exchange` from the prepared
  request to a decoded response or a transport failure.
- The clock-derived nonce is an integer argument.

Four behaviours of the code worth noting:

- A successful call yields the whole decoded response object, not only its
  `result` field (kraken-api.js:93).
- A caller-supplied `otp` parameter is sent unchanged when the
  configuration has no `otp`. So "`otp` is sent exactly when configured"
  holds only for parameters without `otp` (`Client.OtpSentExactlyWhenConfigured`).
- An `E` entry that is just `"E"` produces a failure with an empty message,
  not the unknown error. The code checks only how many entries survive the filter
  (`Responses.NormaliseBareE`).
- A private call whose configured secret is not a string fails while it is
  being signed, before anything is sent. This happens, for instance, when the
  client was built without a secret (kraken-api.js:60,
  `Client.PrivateCallWithoutSecret`). Public calls never read the secret.

## Model

| member | source | states |
|---|---|---|
| Methods.Route | kraken-api.js:115-121 | A name in the public list routes public. A name in the private list but not the public one routes private. Any other name fails with `InvalidMethod(name)`. All three are stated as if-and-only-if. |
| Methods.MethodListsDisjoint | kraken-api.js:13-55 | No public method name equals any private method name. |
| Methods.PublicMethodsDistinct | kraken-api.js:14-24 | The public list holds 9 distinct names. |
| Methods.PrivateMethodsDistinct | kraken-api.js:25-54 | The private list holds 28 distinct names. |
| Methods.PrivateMethodsRoutePrivate | kraken-api.js:117-118 | Every private-list name reaches the private request; the public-first check never hides one. |
| Methods.RouteClassifiesByList | kraken-api.js:115-121 | Exactly the 37 listed names are accepted, each with the visibility of the list it is in. |
| Errors.Message | kraken-api.js:87-120 | The unknown-error message is the fixed text (line 87). An exchange error's message is the joined codes as given (line 90). An invalid-method message is the method name followed by " is not a valid API method!" (line 120). |
| JsValues.ToStr | kraken-api.js:133 | A number prints in canonical decimal form: a minus sign exactly for negative numbers, no leading zero except in `0`, never `-0`. The text reads back as that number. A string is inserted unchanged. `undefined`, `null`, `true` and `false` print as their names. |
| JsValues.IntToDecimalCanonical | kraken-api.js:63 | The printed form of every integer is canonical and starts with `-` exactly when the integer is negative. |
| JsValues.CanonicalDecimalUnique | kraken-api.js:63 | Any canonical decimal text that reads back as a number is exactly the printed form of that number, so the nonce text in the hash and the version in the path are fully determined. |
| JsValues.ParseNatInjective | kraken-api.js:63 | Two digit strings without leading zeros that read as the same number are the same string. |
| JsValues.ParseNatOfDecimal | kraken-api.js:63 | Reading back the printed digits of a natural number gives the number. |
| JsValues.IntDecimalRoundTrip | kraken-api.js:63 | Reading back the printed form of any integer, sign included, gives the integer. |
| Config.Defaults | kraken-api.js:6-10 | The defaults are exactly `url`, `version` and `timeout`. |
| Config.AssignIsLastWriter | kraken-api.js:105 | For every key, the assigned object holds the value from the last argument that has that key. |
| Config.MakeConfig | kraken-api.js:100-106 | The keys are key, secret, the defaults' keys and the option keys. Option fields win over defaults, and defaults win over credentials. With the shorthand, `otp` is the string. Without object options, url/version/timeout are the defaults. With no options, `otp` is undefined. |
| Responses.Codes | kraken-api.js:84 | The filtered list is no longer than the input. It is empty exactly when no entry starts with `E`. |
| Responses.CodesAppend | kraken-api.js:84 | Filtering distributes over concatenation, so the original order is kept. |
| Responses.CodesSingle | kraken-api.js:84 | One entry contributes itself minus its first letter if it starts with `E`, and nothing otherwise. |
| Responses.SplitJoin | kraken-api.js:90 | Cutting a `", "`-join of comma-free codes at `", "` gives the codes back. |
| Responses.Normalise | kraken-api.js:83-93 | Success exactly when the error list is absent or empty, and then the response is returned unchanged. The unknown error exactly when the list is non-empty with no `E` entry. Otherwise the message is the join of the filtered codes. |
| Responses.ExchangeMessageListsCodes | kraken-api.js:84-90 | Given comma-free entries, cutting the failure message at `", "` recovers exactly the `E` codes, in order. |
| Responses.NonErrorEntryIgnored | kraken-api.js:84-90 | Inserting a non-`E` entry anywhere in a non-empty list changes nothing. |
| Responses.NormaliseOneError | kraken-api.js:84-90 | `["EGeneral:Invalid"]` fails with message `General:Invalid`. |
| Responses.NormaliseOnlyWarning | kraken-api.js:84-88 | `["WWarning:Foo"]` fails with the unknown error. |
| Responses.NormaliseBareE | kraken-api.js:84-90 | `["E"]` fails with an empty message, not the unknown error. |
| Responses.CodesOfMixed | kraken-api.js:84 | From `["WA", "EB:x", "", "EC:y"]` the warning and the empty entry are dropped, leaving `["B:x", "C:y"]` in order. |
| Responses.NormaliseMixed | kraken-api.js:84-90 | `["WA", "EB:x", "", "EC:y"]` fails with message `B:x, C:y`. |
| Signing.MessageSignature | kraken-api.js:58-67 | The signature exists exactly when the configured secret is a string. Otherwise decoding the secret fails with `InvalidSecret`. |
| Signing.SignatureDependsOnEncoding | kraken-api.js:58-67 | The parameters reach the signature only through their encoding: objects with equal encodings are signed alike. |
| Signing.HashInputParts | kraken-api.js:58-63 | The hashed text is the printed nonce, which reads back as the nonce, followed by exactly the encoded parameters. |
| Client.ApiPathInjective | kraken-api.js:133-134 | Under one version, equal paths mean equal visibility and equal method name. The public `/public/` and private `/private/` paths never collide. |
| Client.PrivateParams | kraken-api.js:157-161 | `nonce` is the given nonce, and `otp` is the configured value when defined. Without a configured `otp`, the caller's `otp` (or its absence) is kept. Every other key keeps its value, and no other key is added. |
| Client.RawRequest | kraken-api.js:70-78 | The request is a POST to the given URL with the given timeout and parameter object. Its headers are the given ones plus `User-Agent`, which is set to the client name and overrides any given one. The body is the encoding of exactly the object carried. |
| Client.PublicRequest | kraken-api.js:125-135 | A public request POSTs to url + `/<version>/public/<name>`. Its parameters are untouched, its only header is the client name, and its body is their encoding. |
| Client.PrivateRequest | kraken-api.js:145-170 | It succeeds exactly when the configured secret is a string, and otherwise fails with `InvalidSecret` before anything is sent. A success POSTs to url + `/<version>/private/<name>` with the prepared parameters. Its headers are exactly API-Key, API-Sign and User-Agent. The signature covers the path, the nonce and the same object whose encoding is the body. |
| Client.Prepare | kraken-api.js:109-121 | It fails exactly for unlisted names, with `InvalidMethod`, and for private names when the secret is not a string, with `InvalidSecret`. Listed public names get the public request whatever the secret is. Listed private names with a string secret get the signed request. Absent parameters mean `{}`. |
| Client.Call | kraken-api.js:80-93 | A failure to prepare the request (an unlisted name, or a non-string secret) is the call's failure, whatever the transport would do. A decoded response is normalised. A transport failure is passed through. A success is the transport's response with no errors. |
| Client.OtpSentExactlyWhenConfigured | kraken-api.js:159-161 | For caller parameters without `otp`, a prepared private call sends `otp` exactly when the configuration defines it. |
| Client.PrepareListedPrivate | kraken-api.js:117-118 | A listed private name prepares exactly the private request. |
| Client.PrepareListedPublic | kraken-api.js:115-116 | A listed public name prepares exactly the public request. |
| Client.PrivateUrlOnDefaults | kraken-api.js:153-154 | With default url and version, a private call goes to `https://api.kraken.com/0/private/<name>`. |
| Client.PublicUrlOnDefaults | kraken-api.js:133-134 | With default url and version, a public call goes to `https://api.kraken.com/0/public/<name>`. |
| Client.PreparedParamsWithOtpOnly | kraken-api.js:157-161 | With a configured password and no caller parameters, exactly `{ nonce, otp }` is sent. |
| Client.BalanceRequestOnDefaults | kraken-api.js:153-161 | A signed `Balance` request under the defaults, with a password and no caller parameters, has URL `https://api.kraken.com/0/private/Balance` and data exactly `{ nonce, otp }`. |
| Client.BalanceCallWithOtp | kraken-api.js:153-161 | `Balance` under the defaults, with a string secret and a password, goes to `https://api.kraken.com/0/private/Balance` carrying `{ nonce, otp }`. |
| Client.ShorthandBalanceCall | kraken-api.js:101-105 | A client built with the password shorthand sends `{ nonce, otp }` to the default private Balance URL. |
| Client.TickerRequestOnDefaults | kraken-api.js:133-135 | A public `Ticker` request under the default url and version goes to `https://api.kraken.com/0/public/Ticker`, unsigned, with its parameters as given. |
| Client.DefaultTickerCall | kraken-api.js:133-135 | A client built without options sends `Ticker` to the default public URL. Its parameters are unchanged and it has no API-Key or API-Sign header. |
| Client.UnknownNameCall | kraken-api.js:119-120 | Calling `NotAMethod` fails with `InvalidMethod("NotAMethod")` for every transport. |
| Client.PrivateCallWithoutSecret | kraken-api.js:60 | A client built without a secret argument, whose options do not set one, fails every private call with `InvalidSecret`. This holds for every transport and for options that are absent, the password shorthand, or an object without `secret`. |

## Left out

- The SHA-256, HMAC-SHA512 and base64 primitives inside `getMessageSignature` (kraken-api.js:58-67) are foreign crypto calls. They are uninterpreted fields of `Crypto`; only how they are composed is modelled. The `'binary'` encoding of the HMAC input is not modelled.
- `qs.stringify` (kraken-api.js:59, 77) is a library whose encoding rules are not visible. It is one function shared by signing and sending, so percent-encoding of special characters is not modelled.
- Property order is not modelled. Objects are finite maps, so the encoder sees only their contents. The real encoder writes keys in insertion order, and `nonce` and `otp` are appended after the caller's keys (kraken-api.js:157, 160). That the signed text equals the sent body does not depend on the order.
- The `got` POST, its timeout behaviour and `JSON.parse` (kraken-api.js:80-81) are network I/O and a foreign parser. They are the `exchange` parameter, which returns a decoded response or a transport failure.
- The clock read `new Date() * 1000` (kraken-api.js:157) is ambient time, so the nonce is a parameter. That nonces increase between calls is the clock's property, not the client's, and is not stated.
- The callback/promise plumbing and the `typeof params === 'function'` shorthand (kraken-api.js:110-113, 128-131, 137-139, 148-151, 172-174) are calling-convention glue. An unknown name (kraken-api.js:120) and a non-string secret (kraken-api.js:60, reached from line 163) throw synchronously from `request`, before any promise exists, so a callback is never called. Transport and response failures reject the promise instead. All of them are a `Failure` here.
- `privateAPIRequest` writes `nonce` and `otp` into the caller's own parameter object. The model returns a new object and does not model that mutation being visible to the caller.
- `params || {}` turns any falsy argument into `{}`. The model takes an optional object, and non-object parameters are not modelled.
- Client.PrivateRequest: only a string secret is accepted. `Buffer.from` also accepts buffers, arrays and array-like objects, which are not values of this model. The runtime's exact `TypeError` text is not modelled either: `Errors.InvalidSecretMessage` stands in for it.
- Decoded bodies that do not fit `Response<R>` are not modelled: the `error` field is an optional sequence of strings. In the code:
  - an `error` value with a truthy `length` that is not an array (a non-empty string, say) has no `filter` and throws a `TypeError` (kraken-api.js:84);
  - a non-string entry has no `startsWith` and throws the same way;
  - an `error` of `true`, `false`, a number, `{}` or `""` fails the test at kraken-api.js:83, so the response is returned as a success (kraken-api.js:93);
  - a body that parses to `null` throws at kraken-api.js:83;
  - a body that parses to a number or a string is returned as a success.
- Constructor arguments other than absent, a string or a plain object are not modelled. Numbers, booleans and `null` have no own properties, so they are `NoOptions`.
- JsValues.ToStr: numbers are integers, printed as plain decimal digits. JavaScript's exponent form for magnitudes of 10^21 and above, and fractional numbers, are not modelled.
