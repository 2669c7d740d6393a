/**
 * The records of types.ts: a capability (`IZcapCapability`) and the
 * signer a caller supplies (`ISigner`).
 */
module Types {
  import opened Js

  /** `IZcapCapability`; `context` is its `@context` list. */
  datatype Capability = Capability(
    context: seq<Unknown>,
    id: string,
    controller: string,
    invocationTarget: Option<string>,
    allowedAction: Option<seq<string>>,
    parentCapability: Option<ParentCapability>,
    expires: string)

  /** `parentCapability?: string | IZcapCapability`. */
  datatype ParentCapability = ParentId(id: string) | ParentObject(capability: Capability)

  /**
   * The `CONTEXT_URL` of the bundled Ed25519Signature2020 JSON-LD context,
   * `https://w3id.org/security/suites/ed25519-2020/v1`, written in pieces
   * of 8 characters so that facts about its characters are cheap to prove.
   */
  const Ed25519Signature2020ContextUrl: string :=
    "https://" + "w3id.org" + "/securit" + "y/suites" + "/ed25519" + "-2020/v1"

  /** `ISigner`: an optional id; its `sign` operation is cryptography and not part of this model. */
  datatype Signer = Signer(id: Option<string>)
}
