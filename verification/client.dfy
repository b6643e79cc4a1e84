/**
 * The client itself: routing a call, building the path and URL, preparing
 * the parameters of a private call, signing them, and turning the decoded
 * response into a result or an error.
 */
module Client {
  import opened Wrappers
  import opened Errors
  import opened JsValues
  import opened Methods
  import opened Config
  import opened Responses
  import opened Signing

  const UserAgent: string := "Kraken API Client"

  /** The HTTP exchange a call hands to the transport. */
  datatype HttpRequest = HttpRequest(
    url: string,
    verb: string,
    headers: Object,
    data: Object,      // the parameter object
    body: string,      // its form encoding, as sent
    timeout: Value)

  function VisibilitySegment(vis: Visibility): string {
    if vis == Public then "/public/" else "/private/"
  }

  /** The request path `/<version>/public/<name>` or `/<version>/private/<name>`. */
  function ApiPath(version: Value, vis: Visibility, name: string): string {
    "/" + ToStr(version) + VisibilitySegment(vis) + name
  }

  /** The full URL: the configured base URL followed by the path. */
  function ApiUrl(config: Object, vis: Visibility, name: string): string {
    ToStr(Get(config, "url")) + ApiPath(Get(config, "version"), vis, name)
  }

  /** Under one configuration, distinct routes never share a path: the path names the visibility and the method. */
  lemma {:induction false} ApiPathInjective(version: Value, vis1: Visibility, name1: string, vis2: Visibility, name2: string)
    requires ApiPath(version, vis1, name1) == ApiPath(version, vis2, name2)
    ensures vis1 == vis2 && name1 == name2
  {
    var prefix := "/" + ToStr(version);
    PathParts(version, vis1, name1);
    PathParts(version, vis2, name2);
    var s1 := VisibilitySegment(vis1) + name1;
    var s2 := VisibilitySegment(vis2) + name2;
    AfterPrefix(prefix, s1);
    AfterPrefix(prefix, s2);
    assert s1 == s2;
    SegmentMarksVisibility(vis1, name1);
    SegmentMarksVisibility(vis2, name2);
    AfterPrefix(VisibilitySegment(vis1), name1);
    AfterPrefix(VisibilitySegment(vis2), name2);
  }

  lemma PathParts(version: Value, vis: Visibility, name: string)
    ensures ApiPath(version, vis, name) == ("/" + ToStr(version)) + (VisibilitySegment(vis) + name)
  {
  }

  lemma AfterPrefix(prefix: string, rest: string)
    ensures (prefix + rest)[|prefix|..] == rest
  {
  }

  /** The third character after the version tells `/public/` (`u`) from `/private/` (`r`). */
  lemma SegmentMarksVisibility(vis: Visibility, name: string)
    ensures (VisibilitySegment(vis) + name)[2] == if vis == Public then 'u' else 'r'
  {
  }

  /** Where a call goes: a POST to the configured URL followed by the path of the method. */
  predicate RoutedTo(config: Object, vis: Visibility, name: string, req: HttpRequest) {
    && req.url == ToStr(Get(config, "url")) + ApiPath(Get(config, "version"), vis, name)
    && req.verb == "POST"
    && req.timeout == Get(config, "timeout")
  }

  /**
   * The parameters a private call sends: `nonce` is the given nonce, `otp`
   * is the configured password when one is defined, and every other
   * property is the caller's, unchanged; nothing else is added.
   */
  predicate PreparedParams(config: Object, params: Object, nonce: int, data: Object) {
    var otp := Get(config, "otp");
    && Get(data, "nonce") == Num(nonce)
    && (Defined(otp) ==> Get(data, "otp") == otp)
    && (!Defined(otp) ==> Get(data, "otp") == Get(params, "otp"))
    && data.Keys == params.Keys + {"nonce"} + (if Defined(otp) then {"otp"} else {})
    && forall k :: k in params && k != "nonce" && !(k == "otp" && Defined(otp)) ==> data[k] == params[k]
  }

  /**
   * The headers of a private call: the key, the client name, and a signature
   * over the path, the nonce and the very parameter object whose encoding is
   * the body.
   */
  predicate SignedHeaders(config: Object, name: string, nonce: int, crypto: Crypto, req: HttpRequest) {
    var path := ApiPath(Get(config, "version"), Private, name);
    var signature := MessageSignature(crypto, path, req.data, Get(config, "secret"), Num(nonce));
    && req.headers.Keys == {"API-Key", "API-Sign", "User-Agent"}
    && req.headers["API-Key"] == Get(config, "key")
    && req.headers["User-Agent"] == Str(UserAgent)
    && signature.Success?
    && req.headers["API-Sign"] == Str(signature.value)
    && req.body == crypto.stringify(req.data)
  }

  /** What a public call sends: the parameters untouched, no credentials, no signature. */
  predicate IsPublicRequest(config: Object, name: string, params: Object, crypto: Crypto, req: HttpRequest) {
    && RoutedTo(config, Public, name, req)
    && req.headers == map["User-Agent" := Str(UserAgent)]
    && req.data == params
    && req.body == crypto.stringify(params)
  }

  /** What a private call sends: the prepared parameters, signed. */
  predicate IsSignedRequest(config: Object, name: string, params: Object, nonce: int, crypto: Crypto, req: HttpRequest) {
    && RoutedTo(config, Private, name, req)
    && PreparedParams(config, params, nonce, req.data)
    && SignedHeaders(config, name, nonce, crypto, req)
  }

  /** `params.nonce = nonce`, then `params.otp = config.otp` when the configuration defines one. */
  function PrivateParams(params: Object, nonce: int, config: Object): (p: Object)
    ensures PreparedParams(config, params, nonce, p)
  {
    var withNonce := params["nonce" := Num(nonce)];
    if Defined(Get(config, "otp")) then withNonce["otp" := Get(config, "otp")] else withNonce
  }

  /**
   * `rawRequest` before the network: a POST whose headers are the given ones
   * with the client name set (overriding any given one), and whose body is
   * the encoding of exactly the object it carries.
   */
  function RawRequest(crypto: Crypto, url: string, headers: Object, data: Object, timeout: Value): (r: HttpRequest)
    ensures r.url == url && r.verb == "POST" && r.data == data && r.timeout == timeout
    ensures r.headers.Keys == headers.Keys + {"User-Agent"}
    ensures r.headers["User-Agent"] == Str(UserAgent)
    ensures forall k :: k in headers && k != "User-Agent" ==> r.headers[k] == headers[k]
    ensures r.body == crypto.stringify(r.data)
  {
    HttpRequest(url, "POST", headers["User-Agent" := Str(UserAgent)], data, crypto.stringify(data), timeout)
  }

  function PublicRequest(config: Object, name: string, params: Object, crypto: Crypto): (req: HttpRequest)
    ensures IsPublicRequest(config, name, params, crypto, req)
  {
    RawRequest(crypto, ApiUrl(config, Public, name), map[], params, Get(config, "timeout"))
  }

  /**
   * The private request, or the `TypeError` of a secret that is not a
   * string, which is thrown while signing and so before anything is sent.
   */
  function PrivateRequest(config: Object, name: string, params: Object, nonce: int, crypto: Crypto): (r: Result<HttpRequest, ApiError>)
    ensures r.Success? <==> Get(config, "secret").Str?
    ensures r.Failure? ==> r.error == InvalidSecret
    ensures r.Success? ==> IsSignedRequest(config, name, params, nonce, crypto, r.value)
  {
    var path := ApiPath(Get(config, "version"), Private, name);
    var data := PrivateParams(params, nonce, config);
    var signature :- MessageSignature(crypto, path, data, Get(config, "secret"), Get(data, "nonce"));
    var headers := map["API-Key" := Get(config, "key"), "API-Sign" := Str(signature)];
    var req := RawRequest(crypto, ApiUrl(config, Private, name), headers, data, Get(config, "timeout"));
    assert RoutedTo(config, Private, name, req);
    assert SignedHeaders(config, name, nonce, crypto, req);
    Success(req)
  }

  /**
   * `request(name, params)` up to the network: reject an unknown name before
   * anything is built, otherwise build the public or the signed private request.
   * Missing parameters stand for the empty object.
   */
  function Prepare(config: Object, name: string, params: Option<Object>, nonce: int, crypto: Crypto): (r: Result<HttpRequest, ApiError>)
    ensures r.Failure? <==>
              (name !in PublicMethods && name !in PrivateMethods) ||
              (name in PrivateMethods && !Get(config, "secret").Str?)
    ensures name !in PublicMethods && name !in PrivateMethods ==> r == Failure(InvalidMethod(name))
    ensures name in PrivateMethods && !Get(config, "secret").Str? ==> r == Failure(InvalidSecret)
    ensures name in PublicMethods ==>
              r.Success? && IsPublicRequest(config, name, params.GetOr(map[]), crypto, r.value)
    ensures name in PrivateMethods && Get(config, "secret").Str? ==>
              r.Success? && IsSignedRequest(config, name, params.GetOr(map[]), nonce, crypto, r.value)
  {
    NotInBothLists(name);
    match Route(name)
    case Failure(e) => Failure(e)
    case Success(Public) => Success(PublicRequest(config, name, params.GetOr(map[]), crypto))
    case Success(Private) => PrivateRequest(config, name, params.GetOr(map[]), nonce, crypto)
  }

  /**
   * A whole call: prepare, hand the request to the transport, then normalise
   * the decoded response. An unknown name fails without consulting the transport.
   */
  function Call<R>(config: Object, name: string, params: Option<Object>, nonce: int, crypto: Crypto,
                   exchange: HttpRequest -> Result<Response<R>, string>): (r: Result<Response<R>, ApiError>)
    ensures name !in PublicMethods && name !in PrivateMethods ==> r == Failure(InvalidMethod(name))
    ensures Prepare(config, name, params, nonce, crypto).Failure? ==>
              r == Failure(Prepare(config, name, params, nonce, crypto).error)
    ensures Prepare(config, name, params, nonce, crypto).Success? &&
            exchange(Prepare(config, name, params, nonce, crypto).value).Success? ==>
              r == Normalise(exchange(Prepare(config, name, params, nonce, crypto).value).value)
    ensures r.Success? ==>
              Prepare(config, name, params, nonce, crypto).Success? &&
              exchange(Prepare(config, name, params, nonce, crypto).value) == Success(r.value) &&
              (r.value.error.None? || |r.value.error.value| == 0)
    ensures Prepare(config, name, params, nonce, crypto).Success? &&
            exchange(Prepare(config, name, params, nonce, crypto).value).Failure? ==>
              r == Failure(TransportError(exchange(Prepare(config, name, params, nonce, crypto).value).error))
    ensures r.Failure? ==> !r.error.InvalidMethod? || name !in PublicMethods + PrivateMethods
  {
    var req :- Prepare(config, name, params, nonce, crypto);
    match exchange(req)
    case Failure(reason) => Failure(TransportError(reason))
    case Success(resp) => Normalise(resp)
  }

  /** A private call carries `otp` exactly when the configuration defines one, unless the caller passed its own. */
  lemma OtpSentExactlyWhenConfigured(config: Object, name: string, params: Object, nonce: int, crypto: Crypto)
    requires name in PrivateMethods
    requires "otp" !in params
    ensures var r := Prepare(config, name, Some(params), nonce, crypto);
            r.Success? ==> ("otp" in r.value.data <==> Defined(Get(config, "otp")))
  {
  }

  /** The path and URL of a default configuration, for a written-out expected path. */
  lemma DefaultPathConcat(segment: string, name: string, path: string)
    requires path == "/0" + segment + name
    ensures "/" + "0" + segment + name == path
    ensures DefaultUrl + "/" + "0" + segment + name == DefaultUrl + path
  {
    assert "/" + "0" == "/0";
  }

  /** A listed private name prepares exactly the signed private request. */
  lemma PrepareListedPrivate(config: Object, name: string, params: Option<Object>, nonce: int, crypto: Crypto)
    requires name in PrivateMethods
    ensures Prepare(config, name, params, nonce, crypto) == PrivateRequest(config, name, params.GetOr(map[]), nonce, crypto)
  {
    PrivateMethodsRoutePrivate(name);
  }

  /** Under the default host and version a private call goes to the default host followed by `/0/private/<name>`. */
  lemma PrivateUrlOnDefaults(config: Object, name: string, req: HttpRequest)
    requires Get(config, "url") == Str(DefaultUrl) && Get(config, "version") == Num(DefaultVersion)
    requires RoutedTo(config, Private, name, req)
    ensures req.url == DefaultUrl + "/0/private/" + name
  {
    assert ToStr(Num(0)) == "0";
    DefaultPathConcat("/private/", name, "/0/private/" + name);
  }

  /** With a password configured and no caller parameters, exactly `{ nonce, otp }` is sent. */
  lemma PreparedParamsWithOtpOnly(config: Object, otp: string, nonce: int, data: Object)
    requires Get(config, "otp") == Str(otp)
    requires PreparedParams(config, map[], nonce, data)
    ensures data == map["nonce" := Num(nonce), "otp" := Str(otp)]
  {
    assert data.Keys == {"nonce", "otp"};
  }

  /** A signed `Balance` request under a default host and version, with a password configured and no parameters. */
  lemma BalanceRequestOnDefaults(config: Object, otp: string, nonce: int, crypto: Crypto, req: HttpRequest)
    requires Get(config, "url") == Str(DefaultUrl) && Get(config, "version") == Num(DefaultVersion)
    requires Get(config, "otp") == Str(otp)
    requires IsSignedRequest(config, "Balance", map[], nonce, crypto, req)
    ensures req.url == DefaultUrl + "/0/private/Balance"
    ensures req.data == map["nonce" := Num(nonce), "otp" := Str(otp)]
  {
    PrivateUrlOnDefaults(config, "Balance", req);
    PreparedParamsWithOtpOnly(config, otp, nonce, req.data);
    assert "/0/private/" + "Balance" == "/0/private/Balance";
  }

  /** A private call under a default host and version, with a password configured and no parameters. */
  lemma BalanceCallWithOtp(config: Object, secret: string, otp: string, nonce: int, crypto: Crypto)
    requires Get(config, "url") == Str(DefaultUrl) && Get(config, "version") == Num(DefaultVersion)
    requires Get(config, "secret") == Str(secret) && Get(config, "otp") == Str(otp)
    ensures var r := Prepare(config, "Balance", None, nonce, crypto);
            && r.Success?
            && r.value.url == DefaultUrl + "/0/private/Balance"
            && r.value.data == map["nonce" := Num(nonce), "otp" := Str(otp)]
  {
    assert PrivateMethods[0] == "Balance";
    PrepareListedPrivate(config, "Balance", None, nonce, crypto);
    BalanceRequestOnDefaults(config, otp, nonce, crypto, PrivateRequest(config, "Balance", map[], nonce, crypto).value);
  }

  /** A client built with the password shorthand signs and sends `{ nonce, otp }` to the default host. */
  lemma ShorthandBalanceCall(key: Value, secret: string, otp: string, nonce: int, crypto: Crypto)
    ensures var r := Prepare(MakeConfig(key, Str(secret), OtpShorthand(otp)), "Balance", None, nonce, crypto);
            && r.Success?
            && r.value.url == DefaultUrl + "/0/private/Balance"
            && r.value.data == map["nonce" := Num(nonce), "otp" := Str(otp)]
  {
    var c := MakeConfig(key, Str(secret), OtpShorthand(otp));
    BalanceCallWithOtp(c, secret, otp, nonce, crypto);
  }

  /** A listed public name prepares exactly the public request. */
  lemma PrepareListedPublic(config: Object, name: string, params: Option<Object>, nonce: int, crypto: Crypto)
    requires name in PublicMethods
    ensures Prepare(config, name, params, nonce, crypto) == Success(PublicRequest(config, name, params.GetOr(map[]), crypto))
  {
  }

  /** Under the default host and version a public call goes to the default host followed by `/0/public/<name>`. */
  lemma PublicUrlOnDefaults(config: Object, name: string, req: HttpRequest)
    requires Get(config, "url") == Str(DefaultUrl) && Get(config, "version") == Num(DefaultVersion)
    requires RoutedTo(config, Public, name, req)
    ensures req.url == DefaultUrl + "/0/public/" + name
  {
    assert ToStr(Num(0)) == "0";
    DefaultPathConcat("/public/", name, "/0/public/" + name);
  }

  /** A public `Ticker` request under a default host and version goes there unsigned, with the parameters as given. */
  lemma TickerRequestOnDefaults(config: Object, params: Object, crypto: Crypto, req: HttpRequest)
    requires Get(config, "url") == Str(DefaultUrl) && Get(config, "version") == Num(DefaultVersion)
    requires IsPublicRequest(config, "Ticker", params, crypto, req)
    ensures req.url == DefaultUrl + "/0/public/Ticker"
    ensures req.data == params
    ensures "API-Key" !in req.headers && "API-Sign" !in req.headers
  {
    PublicUrlOnDefaults(config, "Ticker", req);
    assert "/0/public/" + "Ticker" == "/0/public/Ticker";
  }

  /** A client built without options sends a public call to the default host, unsigned and unchanged. */
  lemma DefaultTickerCall(key: Value, secret: Value, nonce: int, crypto: Crypto)
    ensures var r := Prepare(MakeConfig(key, secret, NoOptions), "Ticker", Some(map["pair" := Str("XBTUSD")]), nonce, crypto);
            && r.Success?
            && r.value.url == DefaultUrl + "/0/public/Ticker"
            && r.value.data == map["pair" := Str("XBTUSD")]
            && "API-Key" !in r.value.headers && "API-Sign" !in r.value.headers
  {
    var c := MakeConfig(key, secret, NoOptions);
    var params := map["pair" := Str("XBTUSD")];
    assert PublicMethods[4] == "Ticker";
    PrepareListedPublic(c, "Ticker", Some(params), nonce, crypto);
    TickerRequestOnDefaults(c, params, crypto, PublicRequest(c, "Ticker", params, crypto));
  }

  /** An unknown name fails with `InvalidMethod` whatever the transport would answer: it is never consulted. */
  lemma UnknownNameCall(config: Object, params: Option<Object>, nonce: int, crypto: Crypto,
                        exchange: HttpRequest -> Result<Response<Value>, string>)
    ensures Call(config, "NotAMethod", params, nonce, crypto, exchange) == Failure(InvalidMethod("NotAMethod"))
  {
    assert "NotAMethod" !in PublicMethods;
    assert "NotAMethod" !in PrivateMethods;
    assert Prepare(config, "NotAMethod", params, nonce, crypto) == Failure(InvalidMethod("NotAMethod"));
  }

  /**
   * A client built without a secret can still make public calls, but every
   * private call fails with the decoding `TypeError`, and the transport is
   * never consulted.
   */
  lemma PrivateCallWithoutSecret(key: Value, options: Options, name: string, params: Option<Object>, nonce: int, crypto: Crypto,
                                 exchange: HttpRequest -> Result<Response<Value>, string>)
    requires name in PrivateMethods
    requires !(options.Fields? && "secret" in options.fields)
    ensures Call(MakeConfig(key, Undefined, options), name, params, nonce, crypto, exchange) == Failure(InvalidSecret)
  {
    var c := MakeConfig(key, Undefined, options);
    assert Get(c, "secret") == Undefined;
  }
}
