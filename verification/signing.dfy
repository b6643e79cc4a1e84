/**
 * The request signature of a private call. The digests, the HMAC, base64
 * and the form encoder are foreign primitives, so they are fields of a
 * `Crypto` record rather than definitions; only the way they are composed
 * is modelled.
 */
module Signing {
  import opened Wrappers
  import opened Errors
  import opened JsValues

  datatype Crypto = Crypto(
    stringify: Object -> string,            // form encoding of a parameter object, shared by signing and sending
    sha256: string -> string,               // SHA-256 digest as a binary string
    hmacSha512: (string, string) -> string) // HMAC-SHA512 keyed by the base64-decoded secret, base64 output

  /** The text that is hashed: the nonce as JavaScript prints it, then the encoded parameters. */
  function HashInput(crypto: Crypto, request: Object, nonce: Value): string {
    ToStr(nonce) + crypto.stringify(request)
  }

  /**
   * The hashed text splits into the printed nonce, which reads back as the
   * nonce, and exactly the encoded parameters.
   */
  lemma HashInputParts(crypto: Crypto, request: Object, nonce: int)
    ensures var h := HashInput(crypto, request, Num(nonce));
            var body := crypto.stringify(request);
            && |body| <= |h|
            && h[|h| - |body|..] == body
            && ParseInt(h[..|h| - |body|]) == Some(nonce)
  {
    var h := HashInput(crypto, request, Num(nonce));
    assert h[..|ToStr(Num(nonce))|] == ToStr(Num(nonce));
  }

  /**
   * The `API-Sign` value: HMAC of the path followed by the hash of the nonce
   * and parameters. Decoding the secret as base64 accepts only a string; any
   * other configured value throws a `TypeError` before anything is sent.
   */
  function MessageSignature(crypto: Crypto, path: string, request: Object, secret: Value, nonce: Value): (r: Result<string, ApiError>)
    ensures r.Success? <==> secret.Str?
    ensures r.Failure? ==> r.error == InvalidSecret
  {
    if secret.Str? then
      Success(crypto.hmacSha512(secret.s, path + crypto.sha256(HashInput(crypto, request, nonce))))
    else
      Failure(InvalidSecret)
  }

  /**
   * The parameters reach the signature only through their encoding: two
   * parameter objects with the same encoding are signed alike, so the
   * signature covers exactly the text that is sent.
   */
  lemma SignatureDependsOnEncoding(crypto: Crypto, path: string, a: Object, b: Object, secret: Value, nonce: Value)
    requires crypto.stringify(a) == crypto.stringify(b)
    ensures MessageSignature(crypto, path, a, secret, nonce) == MessageSignature(crypto, path, b, secret, nonce)
  {
    assert HashInput(crypto, a, nonce) == HashInput(crypto, b, nonce);
  }
}
