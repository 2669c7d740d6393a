/**
 * zcap-invocation-request.ts: building a request that invokes a
 * capability, and the request wrapper that only https requests with a
 * verified invocation get past.  `signCapabilityInvocation` and the
 * verification collaborators are parameters of the model.
 */
module ZcapInvocationRequest {
  import opened Js
  import opened Fetch
  import opened Did
  import opened RootZcap
  import opened InvocationHttpSignature
  import Types
  import DidKey

  /** `capability?: IZcapCapability | string`. */
  datatype CapabilityRef = CapabilityObject(capability: Types.Capability) | CapabilityId(id: string)

  /**
   * The options of `createRequestForCapabilityInvocation`; None stands
   * for an absent property, and `body` (a Blob or FormData) is opaque.
   */
  datatype InvocationRequestOptions = InvocationRequestOptions(
    capability: Option<CapabilityRef>,
    requestMethod: Option<string>,
    headers: Option<map<string, string>>,
    action: Option<string>,
    invocationSigner: Types.Signer,
    body: Unknown)

  /** What `signCapabilityInvocation` is given. */
  datatype SignInvocationInput = SignInvocationInput(
    capability: Option<CapabilityRef>,
    capabilityAction: string,
    headers: map<string, string>,
    invocationSigner: Types.Signer,
    requestMethod: string,
    url: string)

  /** `signCapabilityInvocation(input)`: the signed headers. */
  type SignCapabilityInvocation = SignInvocationInput -> Result<map<string, string>, Error>

  /** The request init returned: method, signed headers and body. */
  datatype InvocationRequestInit = InvocationRequestInit(
    requestMethod: string,
    headers: map<string, string>,
    body: Unknown)

  /**
   * The signer's input: the method is `options.method || 'GET'`, so an
   * empty method also becomes GET; the action is `options.action ?? method`,
   * so an empty action is kept; headers default to `{}`.
   */
  function SignInputOf(url: Url, options: InvocationRequestOptions): (input: SignInvocationInput)
    ensures options.requestMethod.Some? && options.requestMethod.value != ""
      ==> input.requestMethod == options.requestMethod.value
    ensures options.requestMethod.None? || options.requestMethod.value == "" ==> input.requestMethod == "GET"
    ensures options.action.Some? ==> input.capabilityAction == options.action.value
    ensures options.action.None? ==> input.capabilityAction == input.requestMethod
    ensures options.headers.Some? ==> input.headers == options.headers.value
    ensures options.headers.None? ==> input.headers == map[]
    ensures input.url == url.Href()
    ensures input.capability == options.capability && input.invocationSigner == options.invocationSigner
  {
    var requestMethod := if options.requestMethod.Some? && options.requestMethod.value != ""
      then options.requestMethod.value else "GET";
    var capabilityAction := if options.action.Some? then options.action.value else requestMethod;
    SignInvocationInput(
      options.capability,
      capabilityAction,
      if options.headers.Some? then options.headers.value else map[],
      options.invocationSigner,
      requestMethod,
      url.Href())
  }

  /** `createRequestForCapabilityInvocation(url, options)`. */
  function CreateRequestForCapabilityInvocation(url: Url, options: InvocationRequestOptions,
                                                sign: SignCapabilityInvocation): (r: Result<InvocationRequestInit, Error>)
    ensures r.Success? <==> sign(SignInputOf(url, options)).Success?
    ensures r.Failure? ==> r.error == sign(SignInputOf(url, options)).error
    ensures r.Success? ==>
      && r.value.headers == sign(SignInputOf(url, options)).value
      && r.value.requestMethod == SignInputOf(url, options).requestMethod
      && r.value.body == options.body
  {
    var input := SignInputOf(url, options);
    match sign(input)
    case Failure(e) => Failure(e)
    case Success(signedInvocationHeaders) =>
      Success(InvocationRequestInit(input.requestMethod, signedInvocationHeaders, options.body))
  }

  /** `||` versus `??`: an empty method becomes GET, but an empty action stays empty. */
  lemma EmptyMethodAndAction(url: Url, options: InvocationRequestOptions)
    requires options.requestMethod == Some("") && options.action == Some("")
    ensures SignInputOf(url, options).requestMethod == "GET"
    ensures SignInputOf(url, options).capabilityAction == ""
  {
  }

  /** The body is not signed over: requests that differ only in their body get the same signature input. */
  lemma BodyNotSigned(url: Url, options: InvocationRequestOptions, body: Unknown, sign: SignCapabilityInvocation)
    ensures SignInputOf(url, options.(body := body)) == SignInputOf(url, options)
    ensures CreateRequestForCapabilityInvocation(url, options.(body := body), sign).Success?
         == CreateRequestForCapabilityInvocation(url, options, sign).Success?
    ensures CreateRequestForCapabilityInvocation(url, options, sign).Success? ==>
      CreateRequestForCapabilityInvocation(url, options.(body := body), sign).value
      == CreateRequestForCapabilityInvocation(url, options, sign).value.(body := body)
  {
  }

  /** The options `verified` gives `verifyCapabilityInvocation`: no expected host or action. */
  function VerifiedOptions(request: Request): (options: VerifyOptions)
    ensures options.expectedTarget == request.url.Href()
    ensures options.expectedRootCapability == RootUrn(RootZcapUrn(request.url.Href()))
    ensures options.expectedHost.None? && options.expectedAction.None?
  {
    VerifyOptions(None, request.url.Href(), RootUrn(RootZcapUrn(request.url.Href())), None)
  }

  const HttpsRequiredError: Error := Error("request url must be 'https:' to use ZCAPs")

  /** The outcome of `ZcapInvocationRequest.verified(request, options)`. */
  function VerifiedOutcome(request: Request, id: string, parseSignatureHeader: ParseSignatureHeader,
                           lookup: KeyIdLookup, libraryVerify: LibraryVerify): Result<(), Error>
  {
    if request.url.Protocol() != "https:" then Failure(HttpsRequiredError)
    else VerifyInvocation(request, VerifiedOptions(request), id, parseSignatureHeader, lookup, libraryVerify)
  }

  /** A request that is not `https:` is refused before any signature is looked at, whatever the library would say. */
  lemma VerifiedRequiresHttps(request: Request, id: string, parseSignatureHeader: ParseSignatureHeader,
                              lookup: KeyIdLookup, libraryVerify: LibraryVerify)
    requires request.url.scheme != "https"
    ensures VerifiedOutcome(request, id, parseSignatureHeader, lookup, libraryVerify) == Failure(HttpsRequiredError)
  {
    assert request.url.Protocol()[..|request.url.scheme|] == request.url.scheme;
  }

  /**
   * For an https request the library is asked to check the request's own
   * URL, with the request URL as target, its root-zcap URN as root
   * capability, the request method as action and the `host` header as host.
   * A request's URL is a parsed one, so it never spells out port 443.
   */
  lemma VerifiedExpectations(request: Request)
    requires request.url.scheme == "https" && request.url.Valid()
    ensures var input := LibraryInput(request, VerifiedOptions(request));
      && input.url == request.url.Href()
      && input.expectedTarget == request.url.Href()
      && input.expectedRootCapability == RootUrn(RootZcapUrn(request.url.Href()))
      && input.expectedAction == request.requestMethod
      && input.expectedHost == HeaderGet(request.headers, "host")
  {
    WithHttpsProtocol(request.url);
  }

  /** `parseSignatureHeader(this.request.headers.get('authorization'))`. */
  function ParsedAuthorization(request: Request, parseSignatureHeader: ParseSignatureHeader)
    : Result<map<string, Unknown>, Error>
  {
    parseSignatureHeader(HeaderGet(request.headers, "authorization"))
  }

  /** The invoker check: the authorization `keyId` must be a did:key verification-method id. */
  function InvokerOf(request: Request, parseSignatureHeader: ParseSignatureHeader): (r: Result<string, Error>)
    ensures ParsedAuthorization(request, parseSignatureHeader).Failure?
      ==> r == Failure(ParsedAuthorization(request, parseSignatureHeader).error)
    ensures ParsedAuthorization(request, parseSignatureHeader).Success? ==>
      var keyId := Param(ParsedAuthorization(request, parseSignatureHeader).value, "keyId");
      && (!Truthy(keyId) ==> r == Failure(Error("unable to determine invoker keyId from authorization header")))
      && (Truthy(keyId) && !IsDidKeyVerificationMethodId(keyId)
          ==> r == Failure(Error("unable to determine did:key verificationMethod id from keyId")))
      && (IsDidKeyVerificationMethodId(keyId) ==> r == Success(keyId.s))
    ensures r.Success? ==> IsDidKeyVerificationMethodId(Str(r.value))
  {
    match ParsedAuthorization(request, parseSignatureHeader)
    case Failure(e) => Failure(e)
    case Success(params) =>
      var keyId := Param(params, "keyId");
      if !Truthy(keyId) then Failure(Error("unable to determine invoker keyId from authorization header"))
      else if !IsDidKeyVerificationMethodId(keyId) then
        Failure(Error("unable to determine did:key verificationMethod id from keyId"))
      else Success(keyId.s)
  }

  /**
   * A well-formed `did:key:X#Y` key id is the invoker, and its controller
   * is `did:key:X`: the signer's controller in the source's tests.
   */
  lemma InvokerOfWellFormedKeyId(request: Request, parseSignatureHeader: ParseSignatureHeader,
                                 params: map<string, Unknown>, x: string, y: string)
    requires x != [] && NoColonOrHash(x) && y != [] && NoColonOrHash(y)
    requires ParsedAuthorization(request, parseSignatureHeader) == Success(params)
    requires Param(params, "keyId") == Str(DidKeyPrefix + x + "#" + y)
    ensures InvokerOf(request, parseSignatureHeader) == Success(DidKeyPrefix + x + "#" + y)
    ensures DidKey.ControllerOfDidKeyVerificationMethod(InvokerOf(request, parseSignatureHeader).value)
         == Success(DidKeyPrefix + x)
  {
    WellFormedDidKeyIds(x, y);
    DidKey.ControllerOfWellFormedId(x, y);
  }

  /** `ZcapInvocationRequest`: a request kept as it was given. */
  class ZcapInvocationRequest {
    const request: Request

    constructor (request: Request)
      ensures this.request == request
    {
      this.request := request;
    }

    /** `ZcapInvocationRequest.from(request)`. */
    static method From(request: Request) returns (z: ZcapInvocationRequest)
      ensures fresh(z) && z.request == request
    {
      z := new ZcapInvocationRequest(request);
    }

    /**
     * `ZcapInvocationRequest.verified(request, options)`: the https check,
     * then `verifyCapabilityInvocation`; a wrapper only when both pass.
     */
    static method Verified(request: Request, id: string, parseSignatureHeader: ParseSignatureHeader,
                           lookup: KeyIdLookup, libraryVerify: LibraryVerify)
      returns (r: Result<ZcapInvocationRequest, Error>)
      ensures r.Success? <==> VerifiedOutcome(request, id, parseSignatureHeader, lookup, libraryVerify).Success?
      ensures r.Failure? ==> r.error == VerifiedOutcome(request, id, parseSignatureHeader, lookup, libraryVerify).error
      ensures r.Success? ==> fresh(r.value) && r.value.request == request
    {
      if request.url.Protocol() != "https:" {
        return Failure(HttpsRequiredError);
      }
      var verification := VerifyCapabilityInvocation(request, VerifiedOptions(request), id, parseSignatureHeader,
                                                     lookup, libraryVerify);
      if verification.Failure? {
        return Failure(verification.error);
      }
      var verified := new ZcapInvocationRequest(request);
      return Success(verified);
    }

    /** The `invoker` getter. */
    function Invoker(parseSignatureHeader: ParseSignatureHeader): (r: Result<string, Error>)
      ensures r == InvokerOf(request, parseSignatureHeader)
      ensures r.Success? ==> IsDidKeyVerificationMethodId(Str(r.value))
    {
      InvokerOf(request, parseSignatureHeader)
    }
  }
}
