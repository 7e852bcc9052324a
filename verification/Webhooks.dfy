/** How a webhook is signed, sent with retries, and authenticated. */
module Webhooks {
  import opened TimedStore
  import opened CanonicalJson
  import SecretCache

  /** HMAC-SHA256 as a hex digest, of a key and a message. */
  type Hmac = (string, string) -> string

  datatype AuthMethod = HMAC | API_KEY | Unknown

  /** The two authentication headers; the empty string stands for an absent one. */
  datatype Headers = Headers(signature: string, apiKey: string)

  function GenerateHmacSignature(payload: Json, secret: string, hmac: Hmac): string {
    hmac(secret, SignedText(payload))
  }

  /** The sender's headers; an unknown method raises. */
  function SenderHeaders(payload: Json, auth: AuthMethod, secret: string, apiKey: string, hmac: Hmac): Option<Headers> {
    match auth
    case HMAC => Some(Headers(GenerateHmacSignature(payload, secret, hmac), ""))
    case API_KEY => Some(Headers("", apiKey))
    case Unknown => None
  }

  /** A digest in hexadecimal notation. */
  predicate HexDigits(s: string) { s != "" && forall i: nat :: i < |s| ==> s[i] in "0123456789abcdef" }

  predicate Ascii(s: string) { forall i: nat :: i < |s| ==> s[i] as int < 128 }

  /** A secret that cannot be read makes the receiver go on to the next method, and so does a signature
      that the comparison raises on for not being ASCII; one that does not match does not. */
  function Authenticate(payload: Json, h: Headers, secret: Option<string>, storedKey: Option<string>, devMode: bool, hmac: Hmac)
    : bool
  {
    if h.signature != "" && secret.Some? && Ascii(h.signature) then h.signature == hmac(secret.value, SignedText(payload))
    else if h.apiKey != "" && storedKey.Some? then h.apiKey == storedKey.value
    else devMode
  }

  /** Whatever order the keys of its objects travel in, at any depth, a signed payload is accepted. */
  lemma SignedPayloadAccepted(sent: Json, received: Json, secret: string, key: Option<string>, devMode: bool, hmac: Hmac)
    requires WellFormed(sent) && WellFormed(received) && Equivalent(sent, received)
    requires HexDigits(GenerateHmacSignature(sent, secret, hmac))
    ensures Authenticate(received, SenderHeaders(sent, HMAC, secret, "", hmac).value, Some(secret), key, devMode, hmac)
  {
    SignedTextDecides(sent, received);
  }

  /** If the HMAC never collides under the secret, a signature is accepted for exactly the payloads that
      differ from the signed one in the order of keys only. */
  lemma AcceptedIffEquivalent(sent: Json, received: Json, secret: string, key: Option<string>, devMode: bool, hmac: Hmac)
    requires WellFormed(sent) && WellFormed(received)
    requires forall x, y :: hmac(secret, x) == hmac(secret, y) ==> x == y
    requires HexDigits(GenerateHmacSignature(sent, secret, hmac))
    ensures Authenticate(received, SenderHeaders(sent, HMAC, secret, "", hmac).value, Some(secret), key, devMode, hmac)
       <==> Equivalent(sent, received)
  {
    SignedTextDecides(sent, received);
  }

  /** When the webhook secret was rotated, 300 seconds (and one filling delay) later the receiver accepts
      what is signed with the new secret, whatever its cache held, whatever happened to other secrets, and
      however keys are ordered. */
  lemma {:induction false} AcceptedAfterRotation(
    now: real, db: SecretCache.Database, es: seq<SecretCache.Event>, w: SecretCache.World, v: nat,
    sent: Json, received: Json, secret: string, key: Option<string>, devMode: bool, hmac: Hmac)
    requires WellFormed(sent) && WellFormed(received) && Equivalent(sent, received)
    requires HexDigits(GenerateHmacSignature(sent, secret, hmac))
    requires 0.0 <= w.delay
    requires
      var s := SecretCache.Run(now, db, es, w);
      && SecretCache.RotatedTo(s, v, "parallel_lines_webhook_secret", secret, w.dec)
      && v < |s.changed| && s.changed[v] <= s.now - 300.0 - w.delay
    ensures
      var served := SecretCache.GetSecret(SecretCache.Run(now, db, es, w), "parallel_lines_webhook_secret", w);
      Authenticate(received, SenderHeaders(sent, HMAC, secret, "", hmac).value, served, key, devMode, hmac)
  {
    SecretCache.RotationTakesEffect(now, db, es, w, v, "parallel_lines_webhook_secret", secret);
    SignedPayloadAccepted(sent, received, secret, key, devMode, hmac);
  }

  /** A signature that does not match is final, no API key and no setting makes up for it, unless it is
      one that cannot be compared: then it is as if there were none. */
  lemma WrongSignatureRejected(payload: Json, h: Headers, secret: string, key: Option<string>, devMode: bool, hmac: Hmac)
    requires h.signature != "" && h.signature != GenerateHmacSignature(payload, secret, hmac)
    ensures Authenticate(payload, h, Some(secret), key, devMode, hmac)
       <==> !Ascii(h.signature) && Authenticate(payload, Headers("", h.apiKey), Some(secret), key, devMode, hmac)
  {}

  /** A sender with an API key is accepted by a receiver that has one stored exactly if the two are the same. */
  lemma ApiKeyDecides(sent: Json, received: Json, sentKey: string, storedKey: string, secret: Option<string>, devMode: bool, hmac: Hmac)
    requires sentKey != ""
    ensures Authenticate(received, SenderHeaders(sent, API_KEY, "", sentKey, hmac).value, secret, Some(storedKey), devMode, hmac)
       <==> sentKey == storedKey
  {}

  /** What decides about a webhook: its signature if there is one that can be compared, else its API key if there is
      one that can be compared, else the development setting. */
  lemma FirstUsableCredentialDecides(payload: Json, h: Headers, secret: Option<string>, key: Option<string>, devMode: bool, hmac: Hmac)
    ensures h.signature == "" || secret == None || (exists i: nat :: i < |h.signature| && h.signature[i] >= 128 as char) ==>
      (Authenticate(payload, h, secret, key, devMode, hmac) <==>
         (h.apiKey != "" && key == Some(h.apiKey)) || (devMode && (h.apiKey == "" || key == None)))
    ensures h.signature != "" && secret.Some? && (forall i: nat :: i < |h.signature| ==> h.signature[i] < 128 as char) ==>
      (Authenticate(payload, h, secret, key, devMode, hmac) <==> hmac(secret.value, SignedText(payload)) == h.signature)
  {}

  /** No sender without a known method, and each other one fills exactly one header. */
  lemma OneHeader(payload: Json, auth: AuthMethod, secret: string, apiKey: string, hmac: Hmac)
    ensures SenderHeaders(payload, auth, secret, apiKey, hmac) == None <==> auth == Unknown
    ensures auth == HMAC ==>
      SenderHeaders(payload, auth, secret, apiKey, hmac) == Some(Headers(hmac(secret, SignedText(payload)), ""))
    ensures auth == API_KEY ==> SenderHeaders(payload, auth, secret, apiKey, hmac) == Some(Headers("", apiKey))
  {}

  // ---------------------------------------------------------------- sending with retries

  datatype Attempt = Response(status: int) | RequestFailed(error: string)

  /** With no attempt allowed the sender's result variable is never bound. */
  datatype Sent = Returned(status: int) | Raised(error: string) | UnboundResponse

  predicate Final(a: Attempt) { a.Response? && a.status < 500 }

  function Pow2(n: nat): nat { if n == 0 then 1 else 2 * Pow2(n - 1) }

  /** The error of the last attempt that raised. */
  function LastError(attempts: seq<Attempt>): Option<string> {
    if attempts == [] then None
    else if attempts[|attempts| - 1].RequestFailed? then Some(attempts[|attempts| - 1].error)
    else LastError(attempts[..|attempts| - 1])
  }

  /** `world` gives the outcome of each attempt.  The first response that is no server error is returned
      at once.  After the last attempt an error raised by any of them wins over the last response.
      Between attempts the sender waits 1, 2, 4, ... seconds. */
  method SendWithRetry(maxRetries: int, world: seq<Attempt>) returns (sent: Sent, made: nat, waited: nat)
    requires maxRetries <= |world|
    ensures made <= if maxRetries < 0 then 0 else maxRetries
    ensures forall i: nat :: i + 1 < made ==> !Final(world[i])
    ensures made < maxRetries ==> made > 0 && Final(world[made - 1])
    ensures made > 0 && Final(world[made - 1]) ==> sent == Returned(world[made - 1].status)
    ensures made > 0 && !Final(world[made - 1]) ==>
      sent == match LastError(world[..made]) case Some(e) => Raised(e) case None => Returned(world[made - 1].status)
    ensures made == 0 ==> sent == UnboundResponse
    ensures waited == if made == 0 then 0 else Pow2(made - 1) - 1
  {
    var lastException: Option<string> := None;
    var response := UnboundResponse;
    made, waited := 0, 0;
    while made < maxRetries
      invariant made <= if maxRetries < 0 then 0 else maxRetries
      invariant forall i: nat :: i < made ==> !Final(world[i])
      invariant lastException == LastError(world[..made])
      invariant made == 0 ==> response == UnboundResponse
      invariant made > 0 && lastException == None ==> response == Returned(world[made - 1].status)
      invariant waited == if made == 0 then 0 else if made < maxRetries then Pow2(made) - 1 else Pow2(made - 1) - 1
    {
      assert world[..made + 1][..made] == world[..made];
      match world[made] {
        case Response(status) =>
          response := Returned(status);
          if status < 500 {
            made := made + 1;
            return response, made, waited;
          }
        case RequestFailed(error) =>
          lastException := Some(error);
      }
      if made < maxRetries - 1 {
        waited := waited + Pow2(made);
      }
      made := made + 1;
    }
    sent := if lastException.Some? then Raised(lastException.value) else response;
  }
}
