/**
 * delegation.ts: delegating a capability.  The capability is signed with
 * an object-valued parent capability flattened to its id; the JSON-LD
 * signing (`jsigs.sign`), the suite and the purpose are parameters of the
 * model, and the clock is the `now` argument.
 */
module Delegation {
  import opened Js
  import opened Types

  /** The id a parent capability names, whether it is given as an id or as an object. */
  function ParentIdOf(parent: Option<ParentCapability>): Option<string> {
    match parent
    case None => None
    case Some(ParentId(id)) => Some(id)
    case Some(ParentObject(c)) => Some(c.id)
  }

  /**
   * `capabilityToSign`: the capability with an object-valued
   * `parentCapability` replaced by that object's id and every other field
   * copied.
   */
  function CapabilityToSign(capability: Capability): (toSign: Capability)
    ensures toSign == capability.(parentCapability := toSign.parentCapability)
    ensures capability.parentCapability.Some? && capability.parentCapability.value.ParentObject?
      ==> toSign.parentCapability == Some(ParentId(capability.parentCapability.value.capability.id))
    ensures capability.parentCapability.None? || capability.parentCapability.value.ParentId?
      ==> toSign.parentCapability == capability.parentCapability
  {
    match capability.parentCapability
    case Some(ParentObject(parent)) => capability.(parentCapability := Some(ParentId(parent.id)))
    case _ => capability
  }

  /** The signed document names the same parent as the capability, and only ever by its id. */
  lemma CapabilityToSignKeepsParentId(capability: Capability)
    ensures ParentIdOf(CapabilityToSign(capability).parentCapability) == ParentIdOf(capability.parentCapability)
    ensures CapabilityToSign(capability).parentCapability.None?
         || CapabilityToSign(capability).parentCapability.value.ParentId?
  {
  }

  /** Flattening a flattened capability changes nothing. */
  lemma CapabilityToSignIdempotent(capability: Capability)
    ensures CapabilityToSign(CapabilityToSign(capability)) == CapabilityToSign(capability)
  {
  }

  /** `(url) => Promise<any>`: a caller's document loader. */
  type DocumentLoaderFn = string -> Result<Unknown, Error>

  /**
   * The loader handed to `jsigs.sign`: the caller's, or the default one
   * that answers the bundled Ed25519Signature2020 context (wrapped by the
   * zcap library's `extendDocumentLoader`).
   */
  datatype LoaderChoice = GivenLoader(loader: DocumentLoaderFn) | BundledContextLoader

  /** The default loader's own callback: the bundled context for its URL, undefined otherwise. */
  function BundledContext(url: string, suiteContext: Unknown): (r: Unknown)
    ensures url == Ed25519Signature2020ContextUrl ==> r == Obj(map["document" := suiteContext])
    ensures url != Ed25519Signature2020ContextUrl ==> r == Undefined
  {
    if url == Ed25519Signature2020ContextUrl then Obj(map["document" := suiteContext]) else Undefined
  }

  /** The options of `delegate`; None stands for an absent property, dates are milliseconds since the epoch. */
  datatype DelegateOptions = DelegateOptions(
    signer: Signer,
    capability: Capability,
    date: Option<int>,
    documentLoader: Option<DocumentLoaderFn>)

  /**
   * What `jsigs.sign` is given: the document, the loader, the suite's
   * signer and date, and the parent capability given to the
   * CapabilityDelegation purpose.
   */
  datatype DelegationSignInput = DelegationSignInput(
    document: Capability,
    documentLoader: LoaderChoice,
    signer: Signer,
    date: int,
    purposeParentCapability: Option<ParentCapability>)

  /** `jsigs.sign(document, {documentLoader, suite, purpose})`. */
  type SignDocument = DelegationSignInput -> Result<Unknown, Error>

  /**
   * The arguments of the signing call: the flattened capability, the
   * caller's loader when given, the date when given and `now` otherwise,
   * and the original, unflattened parent for the purpose.
   */
  function SignInputFor(options: DelegateOptions, now: int): (input: DelegationSignInput)
    ensures input.document == CapabilityToSign(options.capability)
    ensures options.date.Some? ==> input.date == options.date.value
    ensures options.date.None? ==> input.date == now
    ensures input.purposeParentCapability == options.capability.parentCapability
    ensures input.signer == options.signer
    ensures input.documentLoader.GivenLoader? <==> options.documentLoader.Some?
    ensures options.documentLoader.Some? ==> input.documentLoader.loader == options.documentLoader.value
  {
    DelegationSignInput(
      CapabilityToSign(options.capability),
      if options.documentLoader.Some? then GivenLoader(options.documentLoader.value) else BundledContextLoader,
      options.signer,
      if options.date.Some? then options.date.value else now,
      options.capability.parentCapability)
  }

  /** `delegate(options)`: exactly what the signing call returns, or the error it throws. */
  function Delegate(options: DelegateOptions, now: int, sign: SignDocument): Result<Unknown, Error> {
    sign(SignInputFor(options, now))
  }

  /**
   * `delegate` returns what the signing call returns when it is handed the
   * capability with its parent flattened to an id, the caller's loader or
   * else the bundled-context loader, the signer, the given date or else
   * `now`, and the parent exactly as given for the delegation purpose.
   */
  lemma DelegateSignsFlattenedCapability(options: DelegateOptions, now: int, sign: SignDocument,
                                         input: DelegationSignInput)
    requires input.document == CapabilityToSign(options.capability)
    requires input.documentLoader
      == if options.documentLoader.Some? then GivenLoader(options.documentLoader.value) else BundledContextLoader
    requires input.signer == options.signer
    requires input.date == if options.date.Some? then options.date.value else now
    requires input.purposeParentCapability == options.capability.parentCapability
    ensures Delegate(options, now, sign) == sign(input)
  {
  }

  /**
   * With an object-valued parent, the document signed names the parent by
   * id while the purpose still receives the whole parent object.
   */
  lemma DelegateFlattensOnlyTheDocument(options: DelegateOptions, now: int, parent: Capability)
    requires options.capability.parentCapability == Some(ParentObject(parent))
    ensures SignInputFor(options, now).document.parentCapability == Some(ParentId(parent.id))
    ensures SignInputFor(options, now).purposeParentCapability == Some(ParentObject(parent))
  {
  }

  /** A given date makes the result independent of the clock. */
  lemma DelegateIgnoresClockWhenDated(options: DelegateOptions, now1: int, now2: int, sign: SignDocument)
    requires options.date.Some?
    ensures SignInputFor(options, now1) == SignInputFor(options, now2)
    ensures Delegate(options, now1, sign) == Delegate(options, now2, sign)
  {
  }
}
