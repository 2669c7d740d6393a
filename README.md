# dzcap core in Dafny

This project models the logic that dzcap owns. dzcap is a thin layer of
Authorization Capabilities (ZCAPs) over HTTP signatures. The model covers:

- **Root-capability URNs.** A target's root URN is `urn:zcap:root:`
  followed by the target passed through `encodeURIComponent`.
  `isRootZcapUrn` recognises such URNs. UTF-8 and `encodeURIComponent` /
  `decodeURIComponent` are modelled as in section 19.2.6 of ECMA-262.
- **DID string tests and did:key controllers.** This covers the three
  regular-expression predicates of `did.ts`, together with their anchoring
  quirks. It also covers `getControllerOfDidKeyVerificationMethod`, which
  keeps the text before the first `#`.
- **base64 and base64url.** `btoa` and `atob` are modelled as the base64
  alphabet of section 4 of RFC 4648. `atob` also follows the
  forgiving-base64 decode of the WHATWG Infra standard. On top of them sit
  the url-safe rewrites of section 5 of RFC 4648 and the byte-copy loop of
  `bytesFromBase64`.
- **HTTP-signature authorization.** `HttpSignatureAuthorization.verified`
  accepts a request only when the verifier answers exactly `true`. The
  model also covers Unix timestamps.
- **Capability invocations read from request headers.**
  - The `authorization` header is checked first, then the
    `capability-invocation` header.
  - Timestamps given in seconds become dates in milliseconds.
  - The options for the zcap verification library are assembled: the
    target is forced to `https:`, and `expectedHost` and `expectedAction`
    get their defaults.
  - The library's answer decides between returning and throwing.
- **Invocation requests.** `createRequestForCapabilityInvocation` picks
  the method with `||` and the action with `??`. `ZcapInvocationRequest`
  only wraps an `https:` request whose invocation verifies, and its
  `invoker` getter checks the key id.
- **Delegation.** Before signing, an object-valued `parentCapability` is
  flattened to its id.
- **The document loader.** It answers a URL by the first rule that
  applies: the bundled Ed25519Signature2020 context, then a did:key, then
  a did:key verification-method id, then the caller's base loader, and
  otherwise an error.

Thrown exceptions and rejected promises are `Failure` values of a `Result`.
Awaits are plain calls. Values of TypeScript type `unknown` are `Js.Unknown`,
and `Js.Truthy` is JavaScript's truthiness test. Some code lives in other
libraries:

- `parseSignatureHeader` and `parseRequest` (http-signature-header);
- `signCapabilityInvocation`;
- `jsigs.sign`;
- the signature verifiers and `getVerifierForKeyId`;
- the zcap library's `verifyCapabilityInvocation`;
- `getDidDocumentFromDidKey` and `getDidForDidUri`.

Each of these is a function-valued parameter of the operations that call
it. `crypto.randomUUID()` and the current time are parameters too.

The `Fetch` module models the parts of the Fetch and URL standards that
the code uses:

- a request, with its URL already parsed into scheme, host, port and the
  rest;
- `Headers.get`;
- a `URL` object, a class whose `protocol` setter follows the
  scheme-state rules of the WHATWG URL standard with a state override,
  including the removal of a port that is the new scheme's default.

### Notes on the code

- **Body signing.** The tests at zcap-invocation-request.test.ts:65-116
  expect `content-type` and `digest` among the signed headers when a body
  is given. `createRequestForCapabilityInvocation`
  (zcap-invocation-request.ts:26-38) never passes the body to
  `signCapabilityInvocation`, and its comment says request bodies are not
  signed over for now. The model follows the code:
  `ZcapInvocationRequest.BodyNotSigned` states that the body never
  reaches the signer.
- **Errors.** The code throws plain `Error`s with fixed messages, and
  `MissingRequiredHeaderError` for a missing header. The model uses those
  exact messages.
- **Checks left to libraries.** Time-window, target, attenuation and chain
  checks happen inside the zcap verification library. The model treats
  them as part of that library's answer, not as dzcap logic.
- **`expectedHost`.** The options object is spread after `expectedHost`,
  so a present `expectedHost` option always wins, even an empty one. The
  truthiness fallback to the `host` header therefore only applies when
  the option is absent. `InvocationHttpSignature.LibraryInput` states this.

## Model

| member | source | states |
|---|---|---|
| Js.FromEntriesLastWins | invocation-http-signature.ts:88 | each header name of `Object.fromEntries` of a header list maps to the value of the last entry with that name |
| Js.AssignEntries | http-signature.ts:13-20 | assigning each header onto `{}` creates exactly the header names except `__proto__` |
| Js.AssignEntriesDropsProto | http-signature.ts:13-20 | assigning the entries one by one gives `Object.fromEntries` of them less the name `__proto__`, which the inherited accessor swallows |
| Js.GetFirstElement | document-loader.ts:45 | `v[0]` fails exactly on undefined and null; on an array it is the first item, or undefined when the array is empty |
| Strings.Split | did-key.ts:27 | `split` yields at least one part, and no part contains the separator |
| Strings.SplitFirst | did-key.ts:27 | the first part of a split is a prefix of the input that ends at the first separator, and is the whole input when there is no separator |
| Strings.ReplaceAll | base64.ts:11-13 | a global one-character `replace` keeps the length, swaps every occurrence and leaves all other characters alone |
| Strings.JoinSplit | did-key.ts:27 | joining the parts of a split with the separator gives back the input |
| Strings.SplitJoin | invocation-json.test.ts:25 | splitting separator-free parts joined by the separator gives back those parts |
| Strings.TrimTrailing | base64.ts:21 | removing `/=+$/` leaves a prefix that does not end in `=`, and everything removed was `=` |
| Strings.TrimTrailingUnique | base64.ts:21 | the trimmed prefix is the only prefix with that property |
| Strings.LeadingDigits | http-signature.ts:92 | the longest prefix of decimal digits: all digits, and followed by a non-digit or by nothing |
| Strings.ParseIntOfDecimal | http-signature.ts:92 | `parseInt` of the decimal form of any integer gives back that integer |
| Strings.ParseIntStopsAtNonDigit | invocation-http-signature.ts:39 | `parseInt` reads the leading digits and ignores what follows a non-digit |
| Utf8.EncodeChar | http-signature.ts:55 | a code point becomes 1 to 4 bytes, ASCII as a single equal byte, otherwise a lead byte announcing the length followed by continuation bytes |
| Utf8.DecodeEncodeChar | invocation-json.test.ts:25 | decoding the multi-byte UTF-8 form of a code point gives the code point back |
| UriComponent.Encode | zcap-invocation-request.ts:65 | `encodeURIComponent` output holds only unreserved characters and `%XX` escapes, so never `:` or `#` |
| UriComponent.DecodeEncode | invocation-json.test.ts:25 | `decodeURIComponent(encodeURIComponent(s)) == s` for every string |
| UriComponent.EncodeInjective | zcap-invocation-request.ts:65 | distinct strings have distinct encodings |
| RootZcap.RootZcapUrn | zcap-invocation-request.ts:65 | the derived URN is a root URN; its suffix after the prefix is the encoded target and holds no `:` |
| RootZcap.IsRootZcapUrnBounds | index.ts:9-12 | strings shorter than the 14-character prefix are rejected, the bare prefix is accepted, and the test is case-sensitive |
| RootZcap.IsRootZcapUrnNeedsString | index.ts:10 | no value that is not a string is a root URN |
| RootZcap.RootZcapUrnFields | invocation-json.test.ts:25 | splitting a derived URN on `:` gives exactly `urn`, `zcap`, `root` and the encoded target |
| RootZcap.RootZcapUrnDecodes | invocation-json.test.ts:24-32 | decoding the fourth `:` field of a derived URN gives back the target |
| RootZcap.RootZcapUrnInjective | zcap-invocation-request.ts:65 | distinct targets have distinct root URNs |
| RootZcap.ResolveRootZcapFromUrn | index.ts:14-21 | a resolved root capability carries the URN as its id and the given controller |
| RootZcap.ResolveDerivedRootZcap | invocation-json.test.ts:24-32 | the resolver recovers the invocation target of every derived root URN |
| Did.VerificationMethodIdMatches | did.ts:17-19 | the end-anchored scan accepts a string exactly when some `did:key:X#Y` with valid X and Y runs to its end |
| Did.WellFormedDidKeyIds | did.ts:10-19 | for valid X and Y, `did:key:X` is a did:key and `did:key:X#Y` is a verification-method id |
| Did.VerificationMethodIdAnyPrefix | did.ts:17-19 | the verification-method test is anchored only at the end: any text may precede a match |
| Did.DidWebAnchoredAtStartOnly | did.ts:13-15 | `did:web:` plus one allowed character followed by anything (e.g. `did:web:a:b`) is accepted; `did:web:` and `did:web::a` are rejected |
| Did.DidKeyAndVerificationMethodIdDisjoint | did.ts:10-19 | no value is both a did:key and a verification-method id |
| Did.PredicatesNeedStrings | did.ts:10-19 | all three predicates reject every value that is not a string |
| DidKey.ControllerOfDidKeyVerificationMethod | did-key.ts:26-36 | on success the result is a did:key: the input's text before its first `#` (or all of it), with no `#` and no `:` after `did:key:`; otherwise the fixed error |
| DidKey.ControllerWithoutHash | did-key.ts:27-28 | a string without `#` is its own controller exactly when it is a did:key |
| DidKey.ControllerOfWellFormedId | did-key.ts:26-36 | the controller of `did:key:X#Y` with valid X is `did:key:X` |
| DidKey.PrefixedDidKeyIsNotDidKey | did.ts:10-12 | the did:key test is anchored at the start: `did:key:` preceded by anything is not a did:key |
| DidKey.ControllerRejectsPrefixedId | did-key.ts:26-36 | a prefixed `…did:key:X#Y` passes the verification-method test but has no controller |
| Base64.EncodeUnpadded | base64.ts:29 | base64 of n bytes without padding has (4n+2)/3 alphabet symbols |
| Base64.EncodeBytes | base64.ts:29 | padded base64 has length 4·⌈n/3⌉, a multiple of 4, made of alphabet symbols and `=` |
| Base64.Btoa | base64.ts:29 | `btoa` fails exactly when some code point is above 0xFF |
| Base64.Atob | base64.ts:33 | every character `atob` returns has a code below 256 |
| Base64.ForgivingDecode | base64.ts:33 | forgiving decode never yields more bytes than there are input characters |
| Base64.JoinCodePointsIsFromCharCodes | base64.ts:26-28 | joining one code point per byte gives the same string as `String.fromCharCode(...bytes)` |
| Base64.BytesToBase64 | base64.ts:25-30 | the result is what `btoa` returns for the joined code points, and equals the padded base64 encoding of the bytes |
| Base64.Base64urlToBase64 | base64.ts:10-15 | every `-` becomes `+`, every `_` becomes `/`, and all other characters and the length are kept |
| Base64.Base64ToBase64Url | base64.ts:17-23 | no `+` or `/` remains, the result does not end in `=`, each kept character is mapped, and only a trailing run of `=` is dropped |
| Base64.Base64urlEncode | base64.ts:1-8 | equals `base64ToBase64Url(bytesToBase64(data))` |
| Base64.BytesFromBase64 | base64.ts:32-39 | fails with InvalidCharacterError exactly when `atob` fails; otherwise a fresh array whose bytes are the char codes of the decoded string, reduced modulo 256 |
| Base64.ToUint8OfFromCharCodes | base64.ts:34-37 | copying the char codes of a byte string back into a `Uint8Array` gives the bytes back |
| Base64.DecodeEncodeUnpadded | base64.ts:25-39 | decoding the unpadded symbols of any byte sequence gives the bytes back |
| Base64.ForgivingDecodePadded | base64.ts:29-33 | the forgiving decode of the padded encoding gives the bytes back |
| Base64.BytesRoundTrip | base64.ts:25-39 | `bytesFromBase64(bytesToBase64(b))` is `b` for every byte sequence |
| Base64.TrimPaddingOfEncodeBytes | base64.ts:6 | stripping the trailing `=` run from padded base64 leaves the unpadded encoding |
| Base64.UrlRoundTrip | base64.ts:10-23 | for input without `-` or `_`, converting to base64url and back gives the input without its trailing `=` run |
| Base64.UrlIdempotent | base64.ts:17-23 | `base64ToBase64Url` is idempotent |
| Base64.SignatureRoundTrip | http-signature.ts:51 | a signature written with `base64urlEncode` decodes back to the same bytes on the verifying side |
| Fetch.HeaderGet | invocation-http-signature.ts:27 | `headers.get` is null exactly when no entry has the name, and otherwise the value of an entry with that name |
| Fetch.HeaderGetAgreesWithFromEntries | invocation-http-signature.ts:83-88 | for a list with unique names, `get` and the object built from the entries agree on every name |
| Fetch.WithProtocol | invocation-http-signature.ts:110-114 | setting `protocol` removes tabs and newlines from the value, keeps host and path, and keeps the URL special or non-special. The scheme is unchanged or becomes the lower-cased scheme read. The port is kept, or dropped when it is the new scheme's default. A URL with a port never becomes `file`, a `file` URL with an empty host never changes, and a valid URL stays valid |
| Fetch.WithHttpsProtocol | invocation-http-signature.ts:82 | setting `https:` turns every special URL, except a `file` URL with an empty host, into an https URL, and removes an explicit port 443; every other URL is left alone |
| Fetch.HttpUpgradeHref | invocation-http-signature.ts:82 | an `http:` URL set to `https:` serialises as `https:` plus what followed its scheme, less an explicit port 443 |
| Fetch.HttpsUpgradeDropsDefaultPort | invocation-http-signature.ts:110-114 | `http://host:443/path` set to `https:` serialises as `https://host/path` |
| Fetch.WithProtocolIdempotent | invocation-http-signature.ts:112 | setting the same protocol twice changes nothing more |
| Fetch.URL.constructor | invocation-http-signature.ts:111 | the new URL object holds the given URL |
| Fetch.URL.SetProtocol | invocation-http-signature.ts:112 | the object's new URL is the old one with the protocol set |
| HttpSignature.HeadersToObject | http-signature.ts:13-20 | the loop builds exactly the object of the header assignments: the last value for each name wins, and a header named `__proto__` is lost |
| HttpSignature.DateToUnixTimestamp | http-signature.ts:84-86 | the floor of milliseconds over 1000: seconds·1000 ≤ ms < seconds·1000 + 1000, also before the epoch |
| HttpSignature.FromDecimalString | http-signature.ts:88-102 | `UnixTimestamp.from` of the decimal string of n gives back n through `toNumber` |
| HttpSignature.FromHeaderSecondsAgreesWithDate | http-signature.ts:90-96 | a header holding the seconds of a date gives the same timestamp as the date itself |
| HttpSignature.SignatureBytes | http-signature.ts:51 | succeeds exactly when the parameter is a string whose base64url-to-base64 form decodes, and then gives those bytes |
| HttpSignature.TimestampOf | http-signature.ts:74-75 | a string parameter becomes its parsed timestamp; anything else throws |
| HttpSignature.Verified | http-signature.ts:35-78 | the method's outcome is the specified authorization decision, including which error is thrown |
| HttpSignature.AuthorizeAcceptsOnlyTrue | http-signature.ts:51-76 | acceptance means the verifier, asked about the UTF-8 bytes of the signing string and the decoded signature, answered exactly `true`; the result carries the parsed `keyId`, `headers`, signature bytes and timestamps |
| HttpSignature.AuthorizeRejectsOtherAnswers | http-signature.ts:65-67 | any verifier answer other than `true` is rejected with "unable to verify http signature" |
| HttpSignature.DefaultVerifierOnlyWhenAbsent | http-signature.ts:38 | the default verifier lookup is used exactly when no `getVerifier` option is given |
| InvocationHttpSignature.MissingRequiredHeader | invocation-http-signature.ts:12-20 | the error is a `MissingRequiredHeaderError` whose default message is "missing required header " plus the name, so the name can be read back from the message |
| InvocationHttpSignature.DateFromSeconds | invocation-http-signature.ts:38-43 | `new Date(seconds * 1000)` is seconds·1000 ms when that is within the range of dates, and NaN otherwise |
| InvocationHttpSignature.OptionalDate | invocation-http-signature.ts:38-43 | a date exists exactly when the parameter is a string |
| InvocationHttpSignature.CreateCapabilityInvocationFromRequest | invocation-http-signature.ts:26-63 | a falsy `authorization` fails first, then a falsy `capability-invocation`; on success the raw authorization header, the given id, the proof type and the `capabilityInvocation` purpose are set |
| InvocationHttpSignature.InvocationFieldMapping | invocation-http-signature.ts:44-61 | verification method, proof value and header list come from the authorization parameters; capability id and action come from the invocation parameters; the dates come from the `created`/`expires` seconds |
| InvocationHttpSignature.CreatedSecondsToMilliseconds | invocation-http-signature.ts:41-43 | a `created` of decimal seconds n becomes the date at n·1000 ms |
| InvocationHttpSignature.UrlWithProtocol | invocation-http-signature.ts:110-114 | returns a fresh URL object holding the URL with its protocol set |
| InvocationHttpSignature.VerifierForKeyId | invocation-http-signature.ts:89-95 | the `getVerifier` callback throws for a falsy key id and otherwise defers to the key lookup |
| InvocationHttpSignature.LibraryInput | invocation-http-signature.ts:83-99 | the library checks the https form of the URL. `expectedHost` is the option when present, else the `host` header. `expectedAction` is a non-empty option, else the request method. The headers are the entries object |
| InvocationHttpSignature.VerifyCapabilityInvocation | invocation-http-signature.ts:69-108 | the method's outcome is the specified verification decision |
| InvocationHttpSignature.VerifyInvocationAccepts | invocation-http-signature.ts:100-107 | verification succeeds exactly when both headers parse, the library answers, its `error` is falsy and `verified` is exactly `true` |
| InvocationHttpSignature.MissingAuthorizationFirst | invocation-http-signature.ts:76-77 | a missing `authorization` header is the error reported, whatever else holds |
| InvocationHttpSignature.HttpRequestVerifiedAsHttps | invocation-http-signature.ts:78-85 | a plain `http:` request is not refused: it is checked against `https:` plus the same remainder, except that an explicit port 443 is dropped |
| ZcapInvocationRequest.SignInputOf | zcap-invocation-request.ts:26-38 | the method is the option if non-empty, else `GET`. The action is the option whenever present, even empty, else the method. Headers default to `{}`. The URL is the URL's string form |
| ZcapInvocationRequest.CreateRequestForCapabilityInvocation | zcap-invocation-request.ts:18-44 | succeeds exactly when signing succeeds; the result holds the signed headers, the defaulted method and the body unchanged |
| ZcapInvocationRequest.EmptyMethodAndAction | zcap-invocation-request.ts:26-27 | an empty method becomes `GET` while an empty action stays empty |
| ZcapInvocationRequest.BodyNotSigned | zcap-invocation-request.ts:28-43 | the body does not reach the signer: changing it changes only the returned body |
| ZcapInvocationRequest.VerifiedOptions | zcap-invocation-request.ts:60-67 | the expected target is the request URL, the root capability is its root URN, and no host or action is given |
| ZcapInvocationRequest.VerifiedRequiresHttps | zcap-invocation-request.ts:53-59 | a request that is not `https:` is refused with the https error, whatever the verifier would say |
| ZcapInvocationRequest.VerifiedExpectations | zcap-invocation-request.ts:60-67 | for an https request the library checks the request's own URL against target = URL, root = its root URN, action = method and host = the `host` header |
| ZcapInvocationRequest.InvokerOf | zcap-invocation-request.ts:72-85 | a parser error passes through; a falsy `keyId` and a `keyId` that is not a verification-method id each raise their own error; every verification-method id, prefixed ones included, is returned unchanged |
| ZcapInvocationRequest.InvokerOfWellFormedKeyId | zcap-invocation-request.test.ts:30-32 | a well-formed `did:key:X#Y` key id is the invoker, and its controller is `did:key:X` |
| ZcapInvocationRequest.ZcapInvocationRequest.constructor | zcap-invocation-request.ts:70-71 | the wrapper keeps the request it is given |
| ZcapInvocationRequest.ZcapInvocationRequest.From | zcap-invocation-request.ts:47-49 | a fresh wrapper around the request |
| ZcapInvocationRequest.ZcapInvocationRequest.Verified | zcap-invocation-request.ts:50-69 | a fresh wrapper exactly when the https check and the invocation verification pass; otherwise the error they raise |
| ZcapInvocationRequest.ZcapInvocationRequest.Invoker | zcap-invocation-request.ts:72-85 | the getter's result is the invoker check on the stored request, and a success is always a verification-method id |
| Delegation.CapabilityToSign | delegation.ts:27-33 | an object-valued parent is replaced by its id; a string or absent parent and every other field are copied unchanged |
| Delegation.CapabilityToSignKeepsParentId | delegation.ts:30-32 | the signed document names the same parent id, and only ever as an id |
| Delegation.CapabilityToSignIdempotent | delegation.ts:27-33 | flattening twice is flattening once |
| Delegation.BundledContext | delegation.ts:35-40 | the default loader's callback answers the Ed25519Signature2020 context URL with the bundled context and everything else with undefined |
| Delegation.SignInputFor | delegation.ts:22-48 | the signer gets the flattened capability; the date is the given one, else now; the caller's loader when given; the purpose gets the original parent |
| Delegation.DelegateSignsFlattenedCapability | delegation.ts:15-50 | `delegate` returns what the signing call returns, its error included, when that call is handed the capability with its parent flattened to an id, the caller's loader or else the bundled-context loader, the signer, the given date or else now, and the parent as given for the purpose |
| Delegation.DelegateFlattensOnlyTheDocument | delegation.ts:27-47 | with an object parent, the document names it by id while the purpose receives the whole object |
| Delegation.DelegateIgnoresClockWhenDated | delegation.ts:22 | a given date makes the signing call and its result independent of the clock |
| DocumentLoader.RemoteDocument | document-loader.ts:31-34 | the DID answer is an object with exactly `document` and `documentUrl`, the latter the requested URL |
| DocumentLoader.LoadDidKey | document-loader.ts:24-35 | a did:key succeeds exactly when its document resolves truthy, and the answer is that document at the URL; a falsy document is the "unexpectedly returned falsy" error |
| DocumentLoader.LoadVerificationMethod | document-loader.ts:37-50 | an error of `getDidForDidUri` or of the resolver propagates; a falsy DID document is an error; a success requires a truthy document and answers at the requested URL |
| DocumentLoader.LoadFromBase | document-loader.ts:51-58 | a truthy base-loader answer is returned as is, and a thrown one propagates; no base loader or a falsy answer gives "unable to load document " plus the URL |
| DocumentLoader.Load | document-loader.ts:17-61 | every answer is truthy. The context URL is answered with the bundled context first. Then come the did:key rule, the verification-method rule and the base loader, each only when the earlier rules do not apply |
| DocumentLoader.DidUrlsBypassBaseLoader | document-loader.ts:24-56 | for did:key URLs and verification-method ids the base loader is never consulted |
| DocumentLoader.DidKeyResolvesInPlace | document-loader.ts:24-35 | `did:key:X` with valid X and a truthy document loads as that document with `documentUrl` the URL |
| DocumentLoader.VerificationMethodResolvesToFirst | document-loader.ts:13-50 | any URL ending in `did:key:X#Y` that `getDidForDidUri` accepts, whatever precedes it, loads as the first verification method of its DID's document |
| DocumentLoader.UnparsableDidUriFails | document-loader.ts:37-38 | a verification-method id that `getDidForDidUri` cannot parse makes the loader fail with that error |
| DocumentLoader.FalsyDidDocumentFails | document-loader.ts:26-44 | a falsy DID document in either DID rule is an error, never an answer |

## Left out

- Command-line tool, console and process plumbing (`dzcap-cli.ts`, `bin/dzcap.js`, `console-nodejs.ts`): these are I/O.
- Cryptography and JSON-LD signing. Ed25519 signing and verification, `jsigs.sign`, the suites and the capability purposes are parameters or opaque values.
- What the zcap verification library checks (time window, target, attenuation, chain walk, root matching) is left out. That code runs in another package and only its answer is modelled.
- Header parsing and signing-string construction. `parseSignatureHeader`, `parseRequest` and `signCapabilityInvocation` are parameters.
- `getDidForDidUri` and `getDidDocumentFromDidKey` are parameters. `getDidForDidUri` may fail, as `new URL` does on text that is not a URL; which texts it rejects is not modelled. `getDidDocumentFromDidKey` relies on a module-level did:key driver. The zcap library's `extendDocumentLoader` wrapper is not part of this model.
- `getVerifierForDidKeyVerificationMethod` is only the default `getVerifier` parameter of `HttpSignature.Authorize`.
- `YEAR_3000` and `Date` parsing and formatting are left out. Dates are integer milliseconds and `parseInt` results are integers or NaN.
- `Strings.ParseInt` reads an optional sign and decimal digits only. It skips no leading whitespace and reads no `0x` prefix. Fractional and non-finite JavaScript numbers are not modelled.
- Header lists are modelled as lower-case name/value pairs. Case-insensitive header-name matching and the combining of repeated headers into one value belong to `Headers` and are not modelled.
- Fetch.WithProtocol: the `protocol` setter also refuses to switch a URL with credentials to `file`; credentials are not part of `Fetch.Url`, so only the refusal for a URL with a port is modelled. URL parsing itself is not modelled: URLs are given already parsed.
- Code points are Unicode scalar values. Lone surrogates, which make `encodeURIComponent` throw, cannot occur in the model.
- The body-signing matrix asserted by the tests is not modelled, because the code never gives the body to the signer.
- InvocationHttpSignature.VerifyCapabilityInvocation: the `documentLoader` option that the spread passes through to the library, and the suite object, are not modelled.
- InvocationHttpSignature.CreateCapabilityInvocationFromRequest: the source returns a MissingRequiredHeaderError that the caller then throws, while a parser error is thrown directly; both are a `Failure` here.
- InvocationHttpSignature.VerifyOptions: an `expectedHost` property that is present but explicitly `undefined` is treated like an absent one.
- `VerifiedZcapInvocationRequest` adds nothing to `ZcapInvocationRequest`, so `Verified` returns the same class.
- The `@context` of `Types.Capability` is a list of values; that it starts with the zcap context URI is not enforced.
