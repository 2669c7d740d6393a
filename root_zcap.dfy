/**
 * The root-capability URN scheme (index.ts): a root capability for an
 * invocation target is named `urn:zcap:root:` followed by the target,
 * percent-encoded with `encodeURIComponent`.
 */
module RootZcap {
  import opened Js
  import opened Strings
  import UriComponent

  const RootZcapUrnPrefix: string := "urn:zcap:root:"
  const ZcapContextV1: string := "https://w3id.org/zcap/v1"

  /** `isRootZcapUrn(v)`: a string that starts with the exact, case-sensitive prefix. */
  predicate IsRootZcapUrn(v: Unknown) {
    v.Str? && StartsWith(v.s, RootZcapUrnPrefix)
  }

  /**
   * `urn:zcap:root:${encodeURIComponent(target)}`, as built by
   * `ZcapInvocationRequest.verified`, `invoke` and the delegate command.
   */
  function RootZcapUrn(target: string): (urn: string)
    ensures IsRootZcapUrn(Str(urn))
    ensures urn[|RootZcapUrnPrefix|..] == UriComponent.Encode(target)
    ensures ':' !in urn[|RootZcapUrnPrefix|..]
  {
    RootZcapUrnPrefix + UriComponent.Encode(target)
  }

  /** `IResolvedRootZcap`: what a root-zcap resolver returns for a root URN. */
  datatype ResolvedRootZcap = ResolvedRootZcap(
    context: string,
    id: string,
    controller: Option<string>,
    invocationTarget: string)

  /** Strings shorter than the 14-character prefix are rejected; the bare prefix is accepted. */
  lemma IsRootZcapUrnBounds(s: string)
    ensures |s| < |RootZcapUrnPrefix| ==> !IsRootZcapUrn(Str(s))
    ensures IsRootZcapUrn(Str(RootZcapUrnPrefix))
    ensures !IsRootZcapUrn(Str("URN:ZCAP:ROOT:"))
  {
    assert "URN:ZCAP:ROOT:"[0] != RootZcapUrnPrefix[0];
  }

  /** Values that are not strings are never root URNs. */
  lemma IsRootZcapUrnNeedsString(v: Unknown)
    requires !v.Str?
    ensures !IsRootZcapUrn(v)
  {
  }

  /** The prefix is the fields `urn`, `zcap` and `root`, each followed by `:`. */
  lemma PrefixFields()
    ensures RootZcapUrnPrefix == "urn" + [':'] + ("zcap" + [':'] + ("root" + [':']))
    ensures ':' !in "urn" && ':' !in "zcap" && ':' !in "root"
  {
  }

  /** The root URN of a target splits on `:` into exactly four fields, the last being the encoded target. */
  lemma RootZcapUrnFields(target: string)
    ensures Split(RootZcapUrn(target), ':') == ["urn", "zcap", "root", UriComponent.Encode(target)]
  {
    var e := UriComponent.Encode(target);
    var parts := ["urn", "zcap", "root", e];
    PrefixFields();
    JoinCons("root", [e], ':');
    assert ["zcap", "root", e] == ["zcap"] + ["root", e];
    JoinCons("zcap", ["root", e], ':');
    assert parts == ["urn"] + ["zcap", "root", e];
    JoinCons("urn", ["zcap", "root", e], ':');
    assert Join(parts, ':') == RootZcapUrn(target);
    SplitJoin(parts, ':');
  }

  /** Decoding the fourth `:`-field of a root URN gives back its target. */
  lemma RootZcapUrnDecodes(target: string)
    ensures |Split(RootZcapUrn(target), ':')| == 4
    ensures UriComponent.Decode(Split(RootZcapUrn(target), ':')[3]) == Some(target)
  {
    RootZcapUrnFields(target);
    UriComponent.DecodeEncode(target);
  }

  /** Distinct targets have distinct root URNs. */
  lemma RootZcapUrnInjective(t1: string, t2: string)
    requires RootZcapUrn(t1) == RootZcapUrn(t2)
    ensures t1 == t2
  {
    assert UriComponent.Encode(t1) == RootZcapUrn(t1)[|RootZcapUrnPrefix|..];
    UriComponent.EncodeInjective(t1, t2);
  }

  /**
   * The root-zcap resolver the tests install: the invocation target is
   * `decodeURIComponent(urn.split(':')[3])` (a missing fourth field reads
   * as the string "undefined"); a URIError from the decoding is thrown.
   */
  function ResolveRootZcapFromUrn(urn: string, controller: Option<string>): (r: Result<ResolvedRootZcap, Error>)
    ensures r.Success? ==> r.value.id == urn && r.value.controller == controller
  {
    var fields := Split(urn, ':');
    var encodedTarget := if |fields| > 3 then fields[3] else "undefined";
    match UriComponent.Decode(encodedTarget)
    case None => Failure(UriError)
    case Some(target) => Success(ResolvedRootZcap(ZcapContextV1, urn, controller, target))
  }

  /** The test resolver recovers the target of every derived root URN. */
  lemma ResolveDerivedRootZcap(target: string, controller: Option<string>)
    ensures ResolveRootZcapFromUrn(RootZcapUrn(target), controller)
         == Success(ResolvedRootZcap(ZcapContextV1, RootZcapUrn(target), controller, target))
  {
    RootZcapUrnDecodes(target);
  }
}
