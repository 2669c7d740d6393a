/**
 * invocation-http-signature.ts: reading a capability invocation out of
 * the `authorization` and `capability-invocation` headers of a request,
 * and preparing and judging the call to the zcap verification library.
 * `parseSignatureHeader`, the verification library and the key lookup
 * are parameters of the model.
 */
module InvocationHttpSignature {
  import opened Js
  import opened Strings
  import opened Fetch
  import Types

  const MissingHeaderMessagePrefix := "missing required header "

  /**
   * `new MissingRequiredHeaderError(headerName)` with its default message;
   * the header name is kept only in that message.
   */
  function MissingRequiredHeader(headerName: string): (e: Error)
    ensures e.MissingRequiredHeaderError?
    ensures e.message == MissingHeaderMessagePrefix + headerName
    ensures e.message[|MissingHeaderMessagePrefix|..] == headerName
  {
    MissingRequiredHeaderError(MissingHeaderMessagePrefix + headerName)
  }

  /** `parseSignatureHeader(value).params`; None stands for a null header value. */
  type ParseSignatureHeader = Option<string> -> Result<map<string, Unknown>, Error>

  function Param(params: map<string, Unknown>, name: string): Unknown {
    if name in params then params[name] else Undefined
  }

  /** The `proof` of an invocation read from headers; dates are their time values in milliseconds. */
  datatype InvocationProof = InvocationProof(
    proofType: string,
    verificationMethod: Unknown,
    proofValue: Unknown,
    created: Option<Number>,
    expires: Option<Number>,
    headers: Unknown,
    proofPurpose: string)

  /** `IHttpRequestCapabilityInvocation`. */
  datatype HttpRequestCapabilityInvocation = HttpRequestCapabilityInvocation(
    headerValue: string,
    id: string,
    capabilityId: Unknown,
    action: Unknown,
    proof: InvocationProof)

  /** The largest time value a `Date` holds (ECMA-262 TimeClip: 8.64e15 ms). */
  const MaxTimeValue: int := 8640000000000000

  /** The time value of `new Date(seconds * 1000)`: NaN for NaN or beyond the range of dates. */
  function DateFromSeconds(seconds: Number): (ms: Number)
    ensures ms.Int? <==> seconds.Int? && -MaxTimeValue <= seconds.n * 1000 <= MaxTimeValue
    ensures ms.Int? ==> ms.n == seconds.n * 1000 && ms.n % 1000 == 0
  {
    match seconds
    case NaN => NaN
    case Int(n) => if -MaxTimeValue <= n * 1000 <= MaxTimeValue then Int(n * 1000) else NaN
  }

  /** `typeof v === 'string' ? new Date(parseInt(v) * 1000) : undefined`. */
  function OptionalDate(v: Unknown): (d: Option<Number>)
    ensures d.Some? <==> v.Str?
  {
    if v.Str? then Some(DateFromSeconds(ParseInt(v.s))) else None
  }

  /** A header value that `if (!value)` rejects: null or the empty string. */
  predicate IsFalsyHeader(value: Option<string>) {
    value.None? || value.value == ""
  }

  /**
   * `createCapabilityInvocationFromRequest(request)`; `id` stands for the
   * result of `crypto.randomUUID()`.  The MissingRequiredHeaderError the
   * source returns, and an error a parser throws, are both failures here.
   */
  function CreateCapabilityInvocationFromRequest(request: Request, id: string, parseSignatureHeader: ParseSignatureHeader)
    : (r: Result<HttpRequestCapabilityInvocation, Error>)
    ensures IsFalsyHeader(HeaderGet(request.headers, "authorization"))
      ==> r == Failure(MissingRequiredHeader("authorization"))
    ensures !IsFalsyHeader(HeaderGet(request.headers, "authorization"))
      && IsFalsyHeader(HeaderGet(request.headers, "capability-invocation"))
      ==> r == Failure(MissingRequiredHeader("capability-invocation"))
    ensures r.Success? ==>
      && r.value.id == id
      && r.value.headerValue == HeaderGet(request.headers, "authorization").value
      && r.value.proof.proofType == "InvocationProofHttpSignature"
      && r.value.proof.proofPurpose == "capabilityInvocation"
  {
    var authorizationHeader := HeaderGet(request.headers, "authorization");
    if IsFalsyHeader(authorizationHeader) then Failure(MissingRequiredHeader("authorization"))
    else
      var capabilityInvocationHeader := HeaderGet(request.headers, "capability-invocation");
      if IsFalsyHeader(capabilityInvocationHeader) then Failure(MissingRequiredHeader("capability-invocation"))
      else match parseSignatureHeader(authorizationHeader)
        case Failure(e) => Failure(e)
        case Success(authorization) =>
          match parseSignatureHeader(capabilityInvocationHeader)
          case Failure(e) => Failure(e)
          case Success(invocation) =>
            Success(HttpRequestCapabilityInvocation(
              authorizationHeader.value,
              id,
              Param(invocation, "id"),
              Param(invocation, "action"),
              InvocationProof(
                "InvocationProofHttpSignature",
                Param(authorization, "keyId"),
                Param(authorization, "signature"),
                OptionalDate(Param(authorization, "created")),
                OptionalDate(Param(authorization, "expires")),
                Param(authorization, "headers"),
                "capabilityInvocation")))
  }

  /**
   * With both headers present and parsed, the invocation takes its
   * verification method, proof value and header list from the
   * authorization parameters, its capability id and action from the
   * capability-invocation parameters, and its dates from the seconds in
   * `created` and `expires`.
   */
  lemma InvocationFieldMapping(request: Request, id: string, parseSignatureHeader: ParseSignatureHeader,
                               authorization: map<string, Unknown>, invocation: map<string, Unknown>)
    requires !IsFalsyHeader(HeaderGet(request.headers, "authorization"))
    requires !IsFalsyHeader(HeaderGet(request.headers, "capability-invocation"))
    requires parseSignatureHeader(HeaderGet(request.headers, "authorization")) == Success(authorization)
    requires parseSignatureHeader(HeaderGet(request.headers, "capability-invocation")) == Success(invocation)
    ensures var r := CreateCapabilityInvocationFromRequest(request, id, parseSignatureHeader);
      && r.Success?
      && r.value.capabilityId == Param(invocation, "id")
      && r.value.action == Param(invocation, "action")
      && r.value.proof.verificationMethod == Param(authorization, "keyId")
      && r.value.proof.proofValue == Param(authorization, "signature")
      && r.value.proof.headers == Param(authorization, "headers")
      && (Param(authorization, "created").Str? ==>
            r.value.proof.created == Some(DateFromSeconds(ParseInt(Param(authorization, "created").s))))
      && (!Param(authorization, "created").Str? ==> r.value.proof.created.None?)
      && (Param(authorization, "expires").Str? ==>
            r.value.proof.expires == Some(DateFromSeconds(ParseInt(Param(authorization, "expires").s))))
      && (!Param(authorization, "expires").Str? ==> r.value.proof.expires.None?)
  {
  }

  /** A `created` parameter holding the decimal seconds `n` becomes the date at `n * 1000` ms. */
  lemma CreatedSecondsToMilliseconds(n: int)
    requires -MaxTimeValue <= n * 1000 <= MaxTimeValue
    ensures OptionalDate(Str(ToDecimal(n))) == Some(Int(n * 1000))
  {
    ParseIntOfDecimal(n);
  }

  /** `urlWithProtocol(url, protocol)`: a copy of the URL with its `protocol` set. */
  method UrlWithProtocol(url: Url, protocol: string) returns (u: URL)
    ensures fresh(u) && u.Value() == WithProtocol(url, protocol)
  {
    u := new URL(url);
    u.SetProtocol(protocol);
  }

  /** `expectedRootCapability: string | IZcapCapability[]`. */
  datatype RootCapabilityExpectation = RootUrn(urn: string) | RootChain(chain: seq<Types.Capability>)

  /** The options of `verifyCapabilityInvocation`; None stands for an absent property. */
  datatype VerifyOptions = VerifyOptions(
    expectedHost: Option<string>,
    expectedTarget: string,
    expectedRootCapability: RootCapabilityExpectation,
    expectedAction: Option<string>)

  /** Finding the verifier for a key id (`getVerifierForKeyId`); the verifier itself is opaque. */
  type KeyIdLookup = Unknown -> Result<Unknown, Error>

  /** The `getVerifier` callback handed to the library: it refuses a falsy key id. */
  function VerifierForKeyId(keyId: Unknown, lookup: KeyIdLookup): (r: Result<Unknown, Error>)
    ensures !Truthy(keyId) ==> r == Failure(Error("unable to determine verifier for unspecified keyId"))
    ensures Truthy(keyId) ==> r == lookup(keyId)
  {
    if !Truthy(keyId) then Failure(Error("unable to determine verifier for unspecified keyId"))
    else lookup(keyId)
  }

  function KeyIdVerifier(lookup: KeyIdLookup): KeyIdLookup {
    keyId => VerifierForKeyId(keyId, lookup)
  }

  /** The options given to the library's `verifyCapabilityInvocation`, apart from the suite and `getVerifier`. */
  datatype LibraryVerifyInput = LibraryVerifyInput(
    url: string,
    requestMethod: string,
    headers: map<string, string>,
    expectedHost: Option<string>,
    expectedTarget: string,
    expectedRootCapability: RootCapabilityExpectation,
    expectedAction: string)

  /** The library's answer: `verified` and `error` as it sets them. */
  datatype VerificationResult = VerificationResult(verified: Unknown, error: Unknown)

  type LibraryVerify = (LibraryVerifyInput, KeyIdLookup) -> Result<VerificationResult, Error>

  /**
   * The options object built for the library: the https form of the URL,
   * the headers as an object, `expectedHost` from the options whenever
   * that property is present (the spread overrides the default) and the
   * `host` header otherwise, `expectedAction` from the options unless it
   * is absent or empty, the request method otherwise.
   */
  function LibraryInput(request: Request, options: VerifyOptions): (input: LibraryVerifyInput)
    ensures input.url == WithProtocol(request.url, "https:").Href()
    ensures input.requestMethod == request.requestMethod
    ensures input.headers == FromEntries(request.headers)
    ensures options.expectedHost.Some? ==> input.expectedHost == options.expectedHost
    ensures options.expectedHost.None? ==> input.expectedHost == HeaderGet(request.headers, "host")
    ensures input.expectedTarget == options.expectedTarget
    ensures input.expectedRootCapability == options.expectedRootCapability
    ensures options.expectedAction.Some? && options.expectedAction.value != ""
      ==> input.expectedAction == options.expectedAction.value
    ensures options.expectedAction.None? || options.expectedAction.value == ""
      ==> input.expectedAction == request.requestMethod
  {
    var defaultHost := if options.expectedHost.Some? && options.expectedHost.value != ""
      then options.expectedHost else HeaderGet(request.headers, "host");
    LibraryVerifyInput(
      WithProtocol(request.url, "https:").Href(),
      request.requestMethod,
      FromEntries(request.headers),
      if options.expectedHost.Some? then options.expectedHost else defaultHost,
      options.expectedTarget,
      options.expectedRootCapability,
      if options.expectedAction.Some? && options.expectedAction.value != "" then options.expectedAction.value
      else request.requestMethod)
  }

  /** The outcome of `verifyCapabilityInvocation(request, options)`. */
  function VerifyInvocation(request: Request, options: VerifyOptions, id: string, parseSignatureHeader: ParseSignatureHeader,
                            lookup: KeyIdLookup, libraryVerify: LibraryVerify): Result<(), Error>
  {
    match CreateCapabilityInvocationFromRequest(request, id, parseSignatureHeader)
    case Failure(e) => Failure(e)
    case Success(_) =>
      match libraryVerify(LibraryInput(request, options), KeyIdVerifier(lookup))
      case Failure(e) => Failure(e)
      case Success(result) =>
        if Truthy(result.error) then Failure(Thrown(result.error))
        else if result.verified != Bool(true) then Failure(Error("unable to verify capability invocation"))
        else Success(())
  }

  /** `verifyCapabilityInvocation(request, options)`. */
  method VerifyCapabilityInvocation(request: Request, options: VerifyOptions, id: string,
                                    parseSignatureHeader: ParseSignatureHeader, lookup: KeyIdLookup,
                                    libraryVerify: LibraryVerify) returns (r: Result<(), Error>)
    ensures r == VerifyInvocation(request, options, id, parseSignatureHeader, lookup, libraryVerify)
  {
    var invocation := CreateCapabilityInvocationFromRequest(request, id, parseSignatureHeader);
    if invocation.Failure? {
      return Failure(invocation.error);
    }
    var zcapInvocationTarget := UrlWithProtocol(request.url, "https:");
    var expectedHost := if options.expectedHost.Some? && options.expectedHost.value != ""
      then options.expectedHost else HeaderGet(request.headers, "host");
    var input := LibraryVerifyInput(
      zcapInvocationTarget.Value().Href(),
      request.requestMethod,
      FromEntries(request.headers),
      if options.expectedHost.Some? then options.expectedHost else expectedHost,
      options.expectedTarget,
      options.expectedRootCapability,
      if options.expectedAction.Some? && options.expectedAction.value != "" then options.expectedAction.value
      else request.requestMethod);
    var verificationResult := libraryVerify(input, KeyIdVerifier(lookup));
    if verificationResult.Failure? {
      return Failure(verificationResult.error);
    }
    if Truthy(verificationResult.value.error) {
      return Failure(Thrown(verificationResult.value.error));
    }
    if verificationResult.value.verified != Bool(true) {
      return Failure(Error("unable to verify capability invocation"));
    }
    return Success(());
  }

  /**
   * Verification succeeds exactly when both headers are there and parse,
   * the library answers, its `error` is falsy and its `verified` is
   * exactly `true`.
   */
  lemma VerifyInvocationAccepts(request: Request, options: VerifyOptions, id: string,
                                parseSignatureHeader: ParseSignatureHeader, lookup: KeyIdLookup, libraryVerify: LibraryVerify)
    ensures VerifyInvocation(request, options, id, parseSignatureHeader, lookup, libraryVerify).Success?
      <==>
        && CreateCapabilityInvocationFromRequest(request, id, parseSignatureHeader).Success?
        && libraryVerify(LibraryInput(request, options), KeyIdVerifier(lookup)).Success?
        && !Truthy(libraryVerify(LibraryInput(request, options), KeyIdVerifier(lookup)).value.error)
        && libraryVerify(LibraryInput(request, options), KeyIdVerifier(lookup)).value.verified == Bool(true)
  {
  }

  /** A missing `authorization` header is reported before anything else happens. */
  lemma MissingAuthorizationFirst(request: Request, options: VerifyOptions, id: string,
                                  parseSignatureHeader: ParseSignatureHeader, lookup: KeyIdLookup, libraryVerify: LibraryVerify)
    requires IsFalsyHeader(HeaderGet(request.headers, "authorization"))
    ensures VerifyInvocation(request, options, id, parseSignatureHeader, lookup, libraryVerify)
         == Failure(MissingRequiredHeader("authorization"))
  {
  }

  /**
   * A plain `http:` request is not refused: the library checks it against
   * the same URL with the `https` scheme, where an explicit port 443
   * becomes the default port and disappears.
   */
  lemma HttpRequestVerifiedAsHttps(request: Request, options: VerifyOptions)
    requires request.url.scheme == "http"
    ensures request.url.port != Some(443) ==> LibraryInput(request, options).url == "https:" + request.url.AfterScheme()
    ensures request.url.port == Some(443)
      ==> LibraryInput(request, options).url == "https:" + request.url.(port := None).AfterScheme()
  {
    HttpUpgradeHref(request.url);
  }
}
