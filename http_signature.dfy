/**
 * http-signature.ts: checking the HTTP-signature `authorization` of a
 * request.  The header parsing and signing-string construction of the
 * http-signature-header library (`parseRequest`) and the signature
 * verifier are parameters of the model.
 */
module HttpSignature {
  import opened Js
  import opened Strings
  import opened Fetch
  import Utf8
  import Base64

  /**
   * `headersToObject(headers)`: assigns `obj[name] = value` on a plain
   * object for each header in iteration order, so a header named
   * `__proto__` is lost.
   */
  method HeadersToObject(headers: Headers) returns (obj: map<string, string>)
    ensures obj == AssignEntries(headers)
    ensures obj == FromEntries(headers) - {ProtoName}
  {
    obj := map[];
    for i := 0 to |headers|
      invariant obj == AssignEntries(headers[..i])
    {
      assert headers[..i + 1][..i] == headers[..i];
      if headers[i].0 != ProtoName {
        obj := obj[headers[i].0 := headers[i].1];
      }
    }
    assert headers[..|headers|] == headers;
    AssignEntriesDropsProto(headers);
  }

  /** `dateToUnixTimestamp(d)`: `Math.floor(d.getTime() / 1000)`, for a date given by its milliseconds since the epoch. */
  function DateToUnixTimestamp(milliseconds: int): (seconds: int)
    ensures seconds * 1000 <= milliseconds < seconds * 1000 + 1000
  {
    milliseconds / 1000
  }

  /** What `UnixTimestamp.from` accepts: a string, or a date given by its milliseconds since the epoch. */
  datatype TimeInput = StringInput(s: string) | DateInput(milliseconds: int)

  /** `UnixTimestamp`: seconds since the epoch, possibly NaN. */
  datatype UnixTimestamp = UnixTimestamp(secondsSinceEpoch: Number) {
    /** `toNumber()`. */
    function ToNumber(): (n: Number)
      ensures n == secondsSinceEpoch
    {
      secondsSinceEpoch
    }
  }

  /** `UnixTimestamp.from(input)`: `parseInt` of a string, whole seconds of a date. */
  function From(input: TimeInput): UnixTimestamp {
    match input
    case StringInput(s) => UnixTimestamp(ParseInt(s))
    case DateInput(ms) => UnixTimestamp(Int(DateToUnixTimestamp(ms)))
  }

  /** A timestamp built from the decimal form of `n` reads back as `n`. */
  lemma FromDecimalString(n: int)
    ensures From(StringInput(ToDecimal(n))).ToNumber() == Int(n)
  {
    ParseIntOfDecimal(n);
  }

  /** A header carrying the seconds of a date gives the same timestamp as the date itself. */
  lemma FromHeaderSecondsAgreesWithDate(milliseconds: int)
    ensures From(StringInput(ToDecimal(DateToUnixTimestamp(milliseconds)))) == From(DateInput(milliseconds))
  {
    FromDecimalString(DateToUnixTimestamp(milliseconds));
  }

  /** `verifier.verify({data, signature})`; its (awaited) result may be any value. */
  type Verifier = (seq<byte>, seq<byte>) -> Result<Unknown, Error>

  /** `getVerifier(keyId)`. */
  type GetVerifier = Unknown -> Result<Verifier, Error>

  /** The arguments given to the library's `parseRequest`. */
  datatype ParseRequestInput = ParseRequestInput(
    url: string,
    requestMethod: string,
    headers: map<string, string>,
    requiredHeaders: seq<string>)

  /** What `parseRequest` returns: the signature parameters and the signing string. */
  datatype ParsedRequest = ParsedRequest(params: map<string, Unknown>, signingString: string)

  type ParseRequest = ParseRequestInput -> Result<ParsedRequest, Error>

  /** The headers `verified` requires to be covered by the signature. */
  const RequiredHeaders: seq<string> := ["(key-id)", "(created)", "(expires)", "(request-target)", "host"]

  /** `parsed.params.<name>`. */
  function Param(params: map<string, Unknown>, name: string): Unknown {
    if name in params then params[name] else Undefined
  }

  /** `VerifiedHttpSignatureAuthorization`: what a successful check returns. */
  datatype VerifiedHttpSignatureAuthorization = VerifiedHttpSignatureAuthorization(
    keyId: Unknown,
    signedParameters: Unknown,
    signature: seq<byte>,
    created: UnixTimestamp,
    expires: UnixTimestamp)

  /** The `getVerifier` option when given, the did:key verifier otherwise. */
  function ChosenGetVerifier(getVerifier: Option<GetVerifier>, defaultGetVerifier: GetVerifier): GetVerifier {
    if getVerifier.Some? then getVerifier.value else defaultGetVerifier
  }

  /** `bytesFromBase64(base64urlToBase64(signature))`; `replace` on a value that is not a string throws a TypeError. */
  function SignatureBytes(signature: Unknown): (r: Result<seq<byte>, Error>)
    ensures signature.Str? && Base64.Base64Bytes(Base64.Base64urlToBase64(signature.s)).Some?
      <==> r.Success?
    ensures r.Success? ==> Some(r.value) == Base64.Base64Bytes(Base64.Base64urlToBase64(signature.s))
  {
    if !signature.Str? then Failure(TypeError("signature.replace is not a function"))
    else match Base64.Base64Bytes(Base64.Base64urlToBase64(signature.s))
      case None => Failure(InvalidCharacterError)
      case Some(bytes) => Success(bytes)
  }

  /** `UnixTimestamp.from(v)` on a parameter: a string is parsed; anything else has no `getTime` and throws. */
  function TimestampOf(v: Unknown): (r: Result<UnixTimestamp, Error>)
    ensures r.Success? <==> v.Str?
    ensures r.Success? ==> r.value == From(StringInput(v.s))
  {
    if v.Str? then Success(From(StringInput(v.s))) else Failure(TypeError("d.getTime is not a function"))
  }

  /** The arguments `verified` gives `parseRequest`. */
  function ParseInputOf(request: Request): ParseRequestInput {
    ParseRequestInput(request.url.Href(), request.requestMethod, AssignEntries(request.headers), RequiredHeaders)
  }

  /**
   * The outcome of `HttpSignatureAuthorization.verified(request, options)`:
   * parse, decode the signature, ask the verifier about the UTF-8 bytes of
   * the signing string, insist on exactly `true`, then build the result.
   */
  function Authorize(request: Request, getVerifier: Option<GetVerifier>, defaultGetVerifier: GetVerifier,
                     parseRequest: ParseRequest): Result<VerifiedHttpSignatureAuthorization, Error>
  {
    match parseRequest(ParseInputOf(request))
    case Failure(e) => Failure(e)
    case Success(parsed) =>
      var keyId := Param(parsed.params, "keyId");
      match SignatureBytes(Param(parsed.params, "signature"))
      case Failure(e) => Failure(e)
      case Success(signature) =>
        match ChosenGetVerifier(getVerifier, defaultGetVerifier)(keyId)
        case Failure(e) => Failure(e)
        case Success(verifier) =>
          match verifier(Utf8.Encode(parsed.signingString), signature)
          case Failure(e) => Failure(e)
          case Success(verified) =>
            if verified != Bool(true) then Failure(Error("unable to verify http signature"))
            else match TimestampOf(Param(parsed.params, "created"))
              case Failure(e) => Failure(e)
              case Success(created) =>
                match TimestampOf(Param(parsed.params, "expires"))
                case Failure(e) => Failure(e)
                case Success(expires) =>
                  Success(VerifiedHttpSignatureAuthorization(
                    keyId, Param(parsed.params, "headers"), signature, created, expires))
  }

  /** `HttpSignatureAuthorization.verified(request, options)`. */
  method Verified(request: Request, getVerifier: Option<GetVerifier>, defaultGetVerifier: GetVerifier,
                  parseRequest: ParseRequest) returns (r: Result<VerifiedHttpSignatureAuthorization, Error>)
    ensures r == Authorize(request, getVerifier, defaultGetVerifier, parseRequest)
  {
    var chosen := ChosenGetVerifier(getVerifier, defaultGetVerifier);
    var headersObject := HeadersToObject(request.headers);
    var parsed := parseRequest(ParseRequestInput(request.url.Href(), request.requestMethod, headersObject, RequiredHeaders));
    if parsed.Failure? {
      return Failure(parsed.error);
    }
    var params := parsed.value.params;
    var keyId := Param(params, "keyId");
    var headers := Param(params, "headers");
    var signatureParam := Param(params, "signature");
    if !signatureParam.Str? {
      return Failure(TypeError("signature.replace is not a function"));
    }
    var decoded := Base64.BytesFromBase64(Base64.Base64urlToBase64(signatureParam.s));
    if decoded.Failure? {
      return Failure(decoded.error);
    }
    var actualSignatureBytes := decoded.value[..];
    var expectedSignedBytes := Utf8.Encode(parsed.value.signingString);
    var verifier := chosen(keyId);
    if verifier.Failure? {
      return Failure(verifier.error);
    }
    var verified := verifier.value(expectedSignedBytes, actualSignatureBytes);
    if verified.Failure? {
      return Failure(verified.error);
    }
    if verified.value != Bool(true) {
      return Failure(Error("unable to verify http signature"));
    }
    var created := TimestampOf(Param(params, "created"));
    if created.Failure? {
      return Failure(created.error);
    }
    var expires := TimestampOf(Param(params, "expires"));
    if expires.Failure? {
      return Failure(expires.error);
    }
    return Success(VerifiedHttpSignatureAuthorization(keyId, headers, actualSignatureBytes, created.value, expires.value));
  }

  /**
   * A request is accepted only when the verifier, asked about the UTF-8
   * bytes of the signing string and the decoded signature, answered exactly
   * `true`; the result then carries the parsed `keyId` and `headers` and
   * the decoded signature bytes.
   */
  lemma AuthorizeAcceptsOnlyTrue(request: Request, getVerifier: Option<GetVerifier>, defaultGetVerifier: GetVerifier,
                                 parseRequest: ParseRequest)
    requires Authorize(request, getVerifier, defaultGetVerifier, parseRequest).Success?
    ensures parseRequest(ParseInputOf(request)).Success?
    ensures var parsed := parseRequest(ParseInputOf(request)).value;
      var keyId := Param(parsed.params, "keyId");
      var auth := Authorize(request, getVerifier, defaultGetVerifier, parseRequest).value;
      && SignatureBytes(Param(parsed.params, "signature")) == Success(auth.signature)
      && ChosenGetVerifier(getVerifier, defaultGetVerifier)(keyId).Success?
      && ChosenGetVerifier(getVerifier, defaultGetVerifier)(keyId).value(Utf8.Encode(parsed.signingString), auth.signature)
         == Success(Bool(true))
      && auth.keyId == keyId
      && auth.signedParameters == Param(parsed.params, "headers")
      && auth.created == From(StringInput(Param(parsed.params, "created").s))
      && auth.expires == From(StringInput(Param(parsed.params, "expires").s))
  {
  }

  /** Any answer of the verifier other than exactly `true` (`false`, `"true"`, `1`, ...) is a rejection. */
  lemma AuthorizeRejectsOtherAnswers(request: Request, getVerifier: Option<GetVerifier>, defaultGetVerifier: GetVerifier,
                                     parseRequest: ParseRequest, parsed: ParsedRequest, signature: seq<byte>,
                                     verifier: Verifier, answer: Unknown)
    requires parseRequest(ParseInputOf(request)) == Success(parsed)
    requires SignatureBytes(Param(parsed.params, "signature")) == Success(signature)
    requires ChosenGetVerifier(getVerifier, defaultGetVerifier)(Param(parsed.params, "keyId")) == Success(verifier)
    requires verifier(Utf8.Encode(parsed.signingString), signature) == Success(answer)
    requires answer != Bool(true)
    ensures Authorize(request, getVerifier, defaultGetVerifier, parseRequest) == Failure(Error("unable to verify http signature"))
  {
  }

  /** The default verifier lookup is used exactly when no `getVerifier` option is given. */
  lemma DefaultVerifierOnlyWhenAbsent(request: Request, getVerifier: GetVerifier, default1: GetVerifier,
                                      default2: GetVerifier, parseRequest: ParseRequest)
    ensures Authorize(request, None, default1, parseRequest) == Authorize(request, Some(default1), default2, parseRequest)
    ensures Authorize(request, Some(getVerifier), default1, parseRequest)
         == Authorize(request, Some(getVerifier), default2, parseRequest)
  {
  }
}
