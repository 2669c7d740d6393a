/**
 * `getControllerOfDidKeyVerificationMethod` of did-key.ts: the DID that
 * controls a did:key verification method is the text before the first
 * `#`, and it must itself be a did:key.
 */
module DidKey {
  import opened Js
  import opened Strings
  import opened Did

  const ControllerError: string := "unable to determine did:key from did:key verificationMethod id"

  /** `verificationMethod.split('#').at(0)`, accepted only when it is a did:key. */
  function ControllerOfDidKeyVerificationMethod(verificationMethod: string): (r: Result<string, Error>)
    ensures r.Success? ==> IsDidKey(Str(r.value)) && StartsWith(verificationMethod, r.value)
    ensures r.Success? ==> '#' !in r.value && NoColonOrHash(r.value[|DidKeyPrefix|..])
    ensures r.Success? ==> |r.value| == |verificationMethod| || verificationMethod[|r.value|] == '#'
    ensures r.Failure? ==> r.error == Error(ControllerError)
  {
    var did := Split(verificationMethod, '#')[0];
    SplitFirst(verificationMethod, '#');
    if !IsDidKey(Str(did)) then Failure(Error(ControllerError))
    else Success(did)
  }

  /** A string without `#` is its own controller exactly when it is a did:key. */
  lemma ControllerWithoutHash(s: string)
    requires '#' !in s
    ensures ControllerOfDidKeyVerificationMethod(s).Success? <==> IsDidKey(Str(s))
    ensures ControllerOfDidKeyVerificationMethod(s).Success? ==> ControllerOfDidKeyVerificationMethod(s).value == s
  {
    SplitFirst(s, '#');
  }

  /** For `did:key:X#Y` with a valid X, the controller is `did:key:X`, whatever Y is. */
  lemma ControllerOfWellFormedId(x: string, y: string)
    requires x != [] && NoColonOrHash(x)
    ensures ControllerOfDidKeyVerificationMethod(DidKeyPrefix + x + "#" + y) == Success(DidKeyPrefix + x)
  {
    var vm := DidKeyPrefix + x + "#" + y;
    var did := DidKeyPrefix + x;
    assert '#' !in did by {
      forall i | 0 <= i < |did| ensures did[i] != '#' {
        if i >= |DidKeyPrefix| { assert did[i] == x[i - |DidKeyPrefix|]; }
      }
    }
    SplitBeforeSeparator(did, '#', y);
    assert vm == did + ['#'] + y;
    assert did[|DidKeyPrefix|..] == x;
  }

  /** Text before `did:key:X` makes the whole no did:key: the inserted prefix's last `:` falls after `did:key:`. */
  lemma PrefixedDidKeyIsNotDidKey(prefix: string, x: string)
    requires prefix != []
    ensures !IsDidKey(Str(prefix + DidKeyPrefix + x))
  {
    var did := prefix + DidKeyPrefix + x;
    var colon := |prefix| + |DidKeyPrefix| - 1;
    assert did[colon] == ':';
    assert did[|DidKeyPrefix|..][colon - |DidKeyPrefix|] == ':';
  }

  /** `did:key:X` with a valid X, after text without `#`, holds no `#`. */
  lemma NoHashInPrefixedDid(prefix: string, x: string)
    requires '#' !in prefix && NoColonOrHash(x)
    ensures '#' !in prefix + DidKeyPrefix + x
  {
    var did := prefix + DidKeyPrefix + x;
    forall i | 0 <= i < |did| ensures did[i] != '#' {
      if i < |prefix| {
        assert did[i] in prefix;
      } else if i >= |prefix| + |DidKeyPrefix| {
        assert did[i] == x[i - |prefix| - |DidKeyPrefix|];
      }
    }
  }

  /**
   * The verification-method pattern accepts any prefix before `did:key:X#Y`,
   * but then the text before `#` is no did:key and the controller cannot
   * be determined.
   */
  lemma ControllerRejectsPrefixedId(prefix: string, x: string, y: string)
    requires prefix != [] && '#' !in prefix
    requires x != [] && NoColonOrHash(x) && y != [] && NoColonOrHash(y)
    ensures IsDidKeyVerificationMethodId(Str(prefix + (DidKeyPrefix + x + "#" + y)))
    ensures ControllerOfDidKeyVerificationMethod(prefix + DidKeyPrefix + x + "#" + y).Failure?
  {
    assert IsDidKeyVerificationMethodId(Str(prefix + (DidKeyPrefix + x + "#" + y))) by {
      WellFormedDidKeyIds(x, y);
      VerificationMethodIdAnyPrefix(prefix, DidKeyPrefix + x + "#" + y);
    }
    var did := prefix + DidKeyPrefix + x;
    NoHashInPrefixedDid(prefix, x);
    SplitBeforeSeparator(did, '#', y);
    assert prefix + DidKeyPrefix + x + "#" + y == did + ['#'] + y;
    PrefixedDidKeyIsNotDidKey(prefix, x);
  }
}
