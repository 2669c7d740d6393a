/**
 * document-loader.ts: the JSON-LD document loader used when verifying
 * capabilities.  A URL is answered by the first rule that applies: the
 * bundled Ed25519Signature2020 context, a did:key, a did:key
 * verification-method id, the caller's base loader, and otherwise an
 * error.  Resolving a did:key to its DID document and `getDidForDidUri`
 * are parameters of the model; the latter may fail.
 */
module DocumentLoader {
  import opened Js
  import opened Did
  import opened Types

  /** `getDidDocumentFromDidKey(did)`. */
  type DidKeyResolver = string -> Result<Unknown, Error>

  /**
   * `getDidForDidUri(didUri)`: it starts with `new URL(didUri)`, which
   * throws a TypeError for text that is not a URL, such as `1did:key:a#b`.
   */
  type DidForDidUri = string -> Result<string, Error>

  /** `baseLoader(url)`. */
  type BaseLoader = string -> Result<Unknown, Error>

  const FalsyDocumentError: Error := Error("getDidDocumentFromDidKey unexpectedly returned falsy")

  /** The answer for a resolved DID: `{document, documentUrl: url}`. */
  function RemoteDocument(document: Unknown, url: string): (r: Unknown)
    ensures r.Obj? && Truthy(r)
    ensures r.fields.Keys == {"document", "documentUrl"}
    ensures r.fields["document"] == document && r.fields["documentUrl"] == Str(url)
  {
    Obj(map["document" := document, "documentUrl" := Str(url)])
  }

  /** The did:key rule: the DID document of the URL itself. */
  function LoadDidKey(url: string, resolve: DidKeyResolver): (r: Result<Unknown, Error>)
    ensures r.Success? <==> resolve(url).Success? && Truthy(resolve(url).value)
    ensures r.Success? ==> r.value == RemoteDocument(resolve(url).value, url)
    ensures resolve(url).Success? && !Truthy(resolve(url).value) ==> r == Failure(FalsyDocumentError)
  {
    match resolve(url)
    case Failure(e) => Failure(e)
    case Success(didDocumentForDidKey) =>
      if !Truthy(didDocumentForDidKey) then Failure(FalsyDocumentError)
      else Success(RemoteDocument(didDocumentForDidKey, url))
  }

  /**
   * The verification-method rule: `didDocument.verificationMethod[0]` of
   * the document of the URL's DID; an error of `getDidForDidUri` or of the
   * resolver propagates, and reading the first method from a document
   * without a `verificationMethod` throws a TypeError.
   */
  function LoadVerificationMethod(url: string, resolve: DidKeyResolver, didForDidUri: DidForDidUri)
    : (r: Result<Unknown, Error>)
    ensures didForDidUri(url).Failure? ==> r == Failure(didForDidUri(url).error)
    ensures didForDidUri(url).Success? && resolve(didForDidUri(url).value).Failure?
      ==> r == Failure(resolve(didForDidUri(url).value).error)
    ensures didForDidUri(url).Success? && resolve(didForDidUri(url).value).Success?
      && !Truthy(resolve(didForDidUri(url).value).value)
      ==> r == Failure(FalsyDocumentError)
    ensures r.Success? ==>
      && didForDidUri(url).Success?
      && resolve(didForDidUri(url).value).Success?
      && Truthy(resolve(didForDidUri(url).value).value)
    ensures r.Success? ==> r.value.Obj? && "documentUrl" in r.value.fields && r.value.fields["documentUrl"] == Str(url)
  {
    match didForDidUri(url)
    case Failure(e) => Failure(e)
    case Success(did) =>
    match resolve(did)
    case Failure(e) => Failure(e)
    case Success(didDocument) =>
      if !Truthy(didDocument) then Failure(FalsyDocumentError)
      else match GetProperty(didDocument, "verificationMethod")
        case Failure(e) => Failure(e)
        case Success(verificationMethods) =>
          match GetFirstElement(verificationMethods)
          case Failure(e) => Failure(e)
          case Success(verificationMethod) => Success(RemoteDocument(verificationMethod, url))
  }

  /** The last rules: a truthy answer of the base loader, otherwise an error naming the URL. */
  function LoadFromBase(url: string, baseLoader: Option<BaseLoader>): (r: Result<Unknown, Error>)
    ensures baseLoader.None? ==> r == Failure(Error("unable to load document " + url))
    ensures baseLoader.Some? && baseLoader.value(url).Success? && Truthy(baseLoader.value(url).value)
      ==> r == baseLoader.value(url)
    ensures baseLoader.Some? && baseLoader.value(url).Success? && !Truthy(baseLoader.value(url).value)
      ==> r == Failure(Error("unable to load document " + url))
    ensures baseLoader.Some? && baseLoader.value(url).Failure? ==> r == baseLoader.value(url)
  {
    if baseLoader.Some? then
      match baseLoader.value(url)
      case Failure(e) => Failure(e)
      case Success(loaded) =>
        if Truthy(loaded) then Success(loaded) else Failure(Error("unable to load document " + url))
    else Failure(Error("unable to load document " + url))
  }

  /**
   * The loader `createDocumentLoader(baseLoader)` builds, applied to `url`;
   * `suiteContext` is the bundled context document.
   */
  function Load(url: string, suiteContext: Unknown, resolve: DidKeyResolver, didForDidUri: DidForDidUri,
                baseLoader: Option<BaseLoader>): (r: Result<Unknown, Error>)
    ensures r.Success? ==> Truthy(r.value)
    ensures url == Ed25519Signature2020ContextUrl ==> r == Success(Obj(map["document" := suiteContext]))
    ensures url != Ed25519Signature2020ContextUrl && IsDidKey(Str(url)) ==> r == LoadDidKey(url, resolve)
    ensures url != Ed25519Signature2020ContextUrl && IsDidKeyVerificationMethodId(Str(url))
      ==> r == LoadVerificationMethod(url, resolve, didForDidUri)
    ensures url != Ed25519Signature2020ContextUrl && !IsDidKey(Str(url)) && !IsDidKeyVerificationMethodId(Str(url))
      ==> r == LoadFromBase(url, baseLoader)
  {
    DidKeyAndVerificationMethodIdDisjoint(Str(url));
    if url == Ed25519Signature2020ContextUrl then Success(Obj(map["document" := suiteContext]))
    else if IsDidKey(Str(url)) then LoadDidKey(url, resolve)
    else if IsDidKeyVerificationMethodId(Str(url)) then LoadVerificationMethod(url, resolve, didForDidUri)
    else LoadFromBase(url, baseLoader)
  }

  /** A did:key starts with `d`; a verification-method id holds a `#`. */
  lemma NoDidUrl(s: string)
    requires s != [] && s[0] != 'd' && '#' !in s
    ensures !IsDidKey(Str(s)) && !IsDidKeyVerificationMethodId(Str(s))
  {
    if |s| >= |DidKeyPrefix| {
      assert s[..|DidKeyPrefix|][0] == s[0];
    }
    forall i | 0 <= i < |s| ensures s[i] != '#' {
      assert s[i] in s;
    }
  }

  /** The bundled context's URL starts with `h` and holds no `#`. */
  lemma ContextUrlShape()
    ensures Ed25519Signature2020ContextUrl != [] && Ed25519Signature2020ContextUrl[0] == 'h'
    ensures '#' !in Ed25519Signature2020ContextUrl
  {
  }

  /** A DID URL is never handed to the base loader: for did:key URLs and verification-method ids it is not consulted. */
  lemma DidUrlsBypassBaseLoader(url: string, suiteContext: Unknown, resolve: DidKeyResolver,
                                didForDidUri: DidForDidUri, base1: Option<BaseLoader>, base2: Option<BaseLoader>)
    requires IsDidKey(Str(url)) || IsDidKeyVerificationMethodId(Str(url))
    ensures Load(url, suiteContext, resolve, didForDidUri, base1) == Load(url, suiteContext, resolve, didForDidUri, base2)
  {
  }

  /** A did:key that resolves to a truthy document loads as that document at its own URL. */
  lemma DidKeyResolvesInPlace(x: string, suiteContext: Unknown, resolve: DidKeyResolver,
                              didForDidUri: DidForDidUri, baseLoader: Option<BaseLoader>, document: Unknown)
    requires x != [] && NoColonOrHash(x)
    requires resolve(DidKeyPrefix + x) == Success(document) && Truthy(document)
    ensures Load(DidKeyPrefix + x, suiteContext, resolve, didForDidUri, baseLoader)
         == Success(RemoteDocument(document, DidKeyPrefix + x))
  {
    WellFormedDidKeyIds(x, "0");
    ContextUrlShape();
    NoDidUrl(Ed25519Signature2020ContextUrl);
  }

  /**
   * A verification-method id that `getDidForDidUri` accepts loads as the
   * first verification method of its DID's document, even with other text
   * before `did:key:X#Y`, because the pattern is anchored only at the end.
   */
  lemma VerificationMethodResolvesToFirst(prefix: string, x: string, y: string, suiteContext: Unknown,
                                          resolve: DidKeyResolver, didForDidUri: DidForDidUri,
                                          baseLoader: Option<BaseLoader>, fields: map<string, Unknown>,
                                          methods: seq<Unknown>)
    requires x != [] && NoColonOrHash(x) && y != [] && NoColonOrHash(y)
    requires var url := prefix + (DidKeyPrefix + x + "#" + y);
      didForDidUri(url).Success? && resolve(didForDidUri(url).value) == Success(Obj(fields))
    requires "verificationMethod" in fields && fields["verificationMethod"] == Arr(methods) && methods != []
    ensures var url := prefix + (DidKeyPrefix + x + "#" + y);
      Load(url, suiteContext, resolve, didForDidUri, baseLoader) == Success(RemoteDocument(methods[0], url))
  {
    var url := prefix + (DidKeyPrefix + x + "#" + y);
    assert IsDidKeyVerificationMethodId(Str(url)) by {
      WellFormedDidKeyIds(x, y);
      VerificationMethodIdAnyPrefix(prefix, DidKeyPrefix + x + "#" + y);
    }
    assert url != Ed25519Signature2020ContextUrl by {
      ContextUrlShape();
      NoDidUrl(Ed25519Signature2020ContextUrl);
    }
    assert Load(url, suiteContext, resolve, didForDidUri, baseLoader)
        == LoadVerificationMethod(url, resolve, didForDidUri);
    assert GetProperty(Obj(fields), "verificationMethod") == Success(Arr(methods));
    assert GetFirstElement(Arr(methods)) == Success(methods[0]);
  }

  /** A falsy DID document is an error in both DID rules, never an answer. */
  lemma FalsyDidDocumentFails(url: string, suiteContext: Unknown, resolve: DidKeyResolver,
                              didForDidUri: DidForDidUri, baseLoader: Option<BaseLoader>)
    requires IsDidKey(Str(url)) ==> resolve(url).Success? && !Truthy(resolve(url).value)
    requires IsDidKeyVerificationMethodId(Str(url))
      ==> (&& didForDidUri(url).Success?
           && resolve(didForDidUri(url).value).Success?
           && !Truthy(resolve(didForDidUri(url).value).value))
    requires IsDidKey(Str(url)) || IsDidKeyVerificationMethodId(Str(url))
    ensures Load(url, suiteContext, resolve, didForDidUri, baseLoader) == Failure(FalsyDocumentError)
  {
    ContextUrlShape();
    NoDidUrl(Ed25519Signature2020ContextUrl);
  }

  /**
   * A verification-method id that `getDidForDidUri` cannot parse, such as
   * `1did:key:a#b`, fails with that error instead of loading.
   */
  lemma UnparsableDidUriFails(url: string, suiteContext: Unknown, resolve: DidKeyResolver,
                              didForDidUri: DidForDidUri, baseLoader: Option<BaseLoader>)
    requires IsDidKeyVerificationMethodId(Str(url)) && didForDidUri(url).Failure?
    ensures Load(url, suiteContext, resolve, didForDidUri, baseLoader) == Failure(didForDidUri(url).error)
  {
    ContextUrlShape();
    NoDidUrl(Ed25519Signature2020ContextUrl);
  }
}
