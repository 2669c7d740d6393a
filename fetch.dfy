/**
 * The parts of the Fetch and URL standards the sources touch: a request
 * (method, URL, header list), `Headers.get`, and a URL object whose
 * `protocol` setter follows the WHATWG URL standard's scheme state with a
 * state override.
 */
module Fetch {
  import opened Js
  import Strings

  /**
   * A header list in iteration order.  Names are lower-case, as `Headers`
   * yields them; a well-formed list has each name once.
   */
  type Headers = seq<(string, string)>

  /** `headers.get(name)`; None stands for null. */
  function HeaderGet(headers: Headers, name: string): (r: Option<string>)
    ensures r.None? <==> forall i | 0 <= i < |headers| :: headers[i].0 != name
    ensures r.Some? ==> exists i | 0 <= i < |headers| :: headers[i] == (name, r.value)
  {
    if headers == [] then None
    else if headers[0].0 == name then Some(headers[0].1)
    else
      var r := HeaderGet(headers[1..], name);
      assert forall i | 0 <= i < |headers[1..]| :: headers[1..][i] == headers[i + 1];
      r
  }

  predicate UniqueNames(headers: Headers) {
    forall i, j | 0 <= i < j < |headers| :: headers[i].0 != headers[j].0
  }

  /** For a well-formed header list, `get` and the object built from its entries agree on every name. */
  lemma HeaderGetAgreesWithFromEntries(headers: Headers, name: string)
    requires UniqueNames(headers)
    ensures HeaderGet(headers, name).Some? <==> name in FromEntries(headers)
    ensures HeaderGet(headers, name).Some? ==> FromEntries(headers)[name] == HeaderGet(headers, name).value
  {
    var r := HeaderGet(headers, name);
    if r.Some? {
      var i :| 0 <= i < |headers| && headers[i] == (name, r.value);
      FromEntriesLastWins(headers, i);
    }
  }

  /**
   * A parsed URL: its scheme (`protocol` without the `:`), its host when
   * it has one, its port when it has one, and `path` standing for the
   * path, query and fragment as serialised.  Credentials are not part of
   * this model.
   */
  datatype Url = Url(scheme: string, host: Option<string>, port: Option<nat>, path: string) {
    /** `url.protocol`. */
    function Protocol(): string { scheme + ":" }

    /** What `url.href` holds after the scheme's `:`. */
    function AfterScheme(): string {
      (if host.Some? then "//" + host.value + (if port.Some? then ":" + Strings.NaturalDigits(port.value) else "") else "")
      + path
    }

    /** `url.href`, `url.toString()`. */
    function Href(): string { scheme + ":" + AfterScheme() }

    /** As the URL parser leaves it: a port only with a host, and never the scheme's default port. */
    predicate Valid() {
      port.Some? ==> host.Some? && port != DefaultPort(scheme)
    }
  }

  /** The special schemes of the WHATWG URL standard. */
  predicate IsSpecialScheme(scheme: string) {
    scheme in {"ftp", "file", "http", "https", "ws", "wss"}
  }

  /** The default port of a special scheme; `file` and non-special schemes have none. */
  function DefaultPort(scheme: string): (port: Option<nat>)
    ensures port.Some? ==> IsSpecialScheme(scheme) && scheme != "file"
  {
    if scheme == "ftp" then Some(21)
    else if scheme == "http" || scheme == "ws" then Some(80)
    else if scheme == "https" || scheme == "wss" then Some(443)
    else None
  }

  predicate IsTabOrNewline(c: char) {
    c == '\t' || c == '\n' || c == '\r'
  }

  /** The input with every ASCII tab and newline removed, the rest kept in order. */
  function RemoveTabAndNewline(s: string): (r: string)
    ensures forall i | 0 <= i < |r| :: !IsTabOrNewline(r[i])
    ensures |r| <= |s|
    ensures (forall i | 0 <= i < |s| :: !IsTabOrNewline(s[i])) ==> r == s
  {
    if s == [] then []
    else (if IsTabOrNewline(s[0]) then [] else [s[0]]) + RemoveTabAndNewline(s[1..])
  }

  predicate IsAsciiAlpha(c: char) {
    ('A' <= c <= 'Z') || ('a' <= c <= 'z')
  }

  /** A code point the scheme state accepts: ASCII alphanumeric, `+`, `-` or `.`. */
  predicate IsSchemeChar(c: char) {
    IsAsciiAlpha(c) || ('0' <= c <= '9') || c == '+' || c == '-' || c == '.'
  }

  /** The longest prefix of scheme code points. */
  function LeadingSchemeChars(s: string): (r: string)
    ensures |r| <= |s| && r == s[..|r|]
    ensures forall i | 0 <= i < |r| :: IsSchemeChar(r[i])
    ensures |r| < |s| ==> !IsSchemeChar(s[|r|])
  {
    if s != [] && IsSchemeChar(s[0]) then [s[0]] + LeadingSchemeChars(s[1..]) else []
  }

  function AsciiLower(s: string): (r: string)
    ensures |r| == |s|
  {
    if s == [] then []
    else [if 'A' <= s[0] <= 'Z' then (s[0] as int + 32) as char else s[0]] + AsciiLower(s[1..])
  }

  /**
   * `url.protocol = value`: the value, with ASCII tabs and newlines
   * removed and followed by `:`, is read in the scheme-start state with a
   * state override.  Without a leading scheme ended by `:` nothing
   * changes; a change between a special and a non-special scheme is
   * ignored, and so is a change to `file` of a URL with a port and a
   * change away from `file` of a URL with an empty host.  Otherwise the
   * scheme becomes the lower-cased scheme read, and a port equal to that
   * scheme's default port is removed.
   */
  function WithProtocol(url: Url, value: string): (r: Url)
    ensures r.host == url.host && r.path == url.path
    ensures IsSpecialScheme(r.scheme) == IsSpecialScheme(url.scheme)
    ensures r.scheme == url.scheme || r.scheme == AsciiLower(LeadingSchemeChars(RemoveTabAndNewline(value) + ":"))
    ensures r.port == url.port || (r.port.None? && url.port == DefaultPort(r.scheme))
    ensures r.scheme == "file" && url.scheme != "file" ==> url.port.None?
    ensures url.scheme == "file" && url.host == Some("") ==> r == url
    ensures url.Valid() ==> r.Valid()
  {
    var input := RemoveTabAndNewline(value) + ":";
    var buffer := LeadingSchemeChars(input);
    assert !IsSchemeChar(input[|input| - 1]);
    if buffer == [] || !IsAsciiAlpha(buffer[0]) || input[|buffer|] != ':' then url
    else
      var scheme := AsciiLower(buffer);
      if IsSpecialScheme(url.scheme) != IsSpecialScheme(scheme) then url
      else if scheme == "file" && url.port.Some? then url
      else if url.scheme == "file" && url.host == Some("") then url
      else url.(scheme := scheme, port := if url.port == DefaultPort(scheme) then None else url.port)
  }

  /** Scheme code points followed by anything else are read up to that point. */
  lemma {:induction false} LeadingSchemeCharsAppend(s: string, tail: string)
    requires forall i | 0 <= i < |s| :: IsSchemeChar(s[i])
    requires tail == [] || !IsSchemeChar(tail[0])
    ensures LeadingSchemeChars(s + tail) == s
  {
    if s != [] {
      assert (s + tail)[1..] == s[1..] + tail;
      LeadingSchemeCharsAppend(s[1..], tail);
    } else {
      assert s + tail == tail;
    }
  }

  /** Lower-casing leaves a string without ASCII upper-case letters alone. */
  lemma {:induction false} AsciiLowerOfLower(s: string)
    requires forall i | 0 <= i < |s| :: !('A' <= s[i] <= 'Z')
    ensures AsciiLower(s) == s
  {
    if s != [] {
      AsciiLowerOfLower(s[1..]);
    }
  }

  /** Setting a lower-case scheme, written without tabs or newlines, reads exactly that scheme. */
  lemma WithLowerCaseProtocol(url: Url, scheme: string)
    requires scheme != [] && IsAsciiAlpha(scheme[0])
    requires forall i | 0 <= i < |scheme| :: IsSchemeChar(scheme[i]) && !('A' <= scheme[i] <= 'Z') && !IsTabOrNewline(scheme[i])
    ensures WithProtocol(url, scheme + ":")
      == if IsSpecialScheme(url.scheme) != IsSpecialScheme(scheme) then url
         else if scheme == "file" && url.port.Some? then url
         else if url.scheme == "file" && url.host == Some("") then url
         else url.(scheme := scheme, port := if url.port == DefaultPort(scheme) then None else url.port)
  {
    var value := scheme + ":";
    assert RemoveTabAndNewline(value) == value;
    assert value + ":" == scheme + "::";
    LeadingSchemeCharsAppend(scheme, "::");
    AsciiLowerOfLower(scheme);
  }

  /**
   * Setting `https:` makes every special URL an https URL without port
   * 443, except a `file` URL with an empty host, and leaves every other
   * URL alone.
   */
  lemma WithHttpsProtocol(url: Url)
    ensures IsSpecialScheme(url.scheme) && !(url.scheme == "file" && url.host == Some(""))
      ==> WithProtocol(url, "https:") == url.(scheme := "https", port := if url.port == Some(443) then None else url.port)
    ensures !IsSpecialScheme(url.scheme) || (url.scheme == "file" && url.host == Some(""))
      ==> WithProtocol(url, "https:") == url
  {
    assert "https:" == "https" + ":";
    WithLowerCaseProtocol(url, "https");
    assert IsSpecialScheme("https") && "https" != "file" && DefaultPort("https") == Some(443);
  }

  /** The `href` of an https URL with a host and no port. */
  lemma HttpsHrefWithoutPort(host: string, path: string)
    ensures Url("https", Some(host), None, path).Href() == "https://" + host + path
  {
    assert Url("https", Some(host), None, path).AfterScheme() == "//" + host + path;
  }

  /** `http://host:443/path` with `protocol` set to `https:` is `https://host/path`: the port is now the default one. */
  lemma HttpsUpgradeDropsDefaultPort(host: string, path: string)
    ensures WithProtocol(Url("http", Some(host), Some(443), path), "https:").Href() == "https://" + host + path
  {
    var url := Url("http", Some(host), Some(443), path);
    assert WithProtocol(url, "https:") == Url("https", Some(host), None, path) by {
      WithHttpsProtocol(url);
    }
    HttpsHrefWithoutPort(host, path);
  }

  /** The `href` of a URL given the https scheme. */
  lemma HttpsHref(url: Url)
    ensures url.(scheme := "https").Href() == "https:" + url.AfterScheme()
  {
    assert url.(scheme := "https").AfterScheme() == url.AfterScheme();
  }

  /** An `http:` URL set to `https:` keeps what follows the scheme, less an explicit port 443. */
  lemma HttpUpgradeHref(url: Url)
    requires url.scheme == "http"
    ensures url.port != Some(443) ==> WithProtocol(url, "https:").Href() == "https:" + url.AfterScheme()
    ensures url.port == Some(443) ==> WithProtocol(url, "https:").Href() == "https:" + url.(port := None).AfterScheme()
  {
    if url.port == Some(443) {
      assert WithProtocol(url, "https:") == url.(port := None).(scheme := "https") by {
        WithHttpsProtocol(url);
      }
      HttpsHref(url.(port := None));
    } else {
      assert WithProtocol(url, "https:") == url.(scheme := "https") by {
        WithHttpsProtocol(url);
      }
      HttpsHref(url);
    }
  }

  /** Setting the same protocol twice changes nothing more. */
  lemma WithProtocolIdempotent(url: Url, value: string)
    ensures WithProtocol(WithProtocol(url, value), value) == WithProtocol(url, value)
  {
  }

  /** A URL object; the `protocol` setter updates it in place. */
  class URL {
    var scheme: string
    var host: Option<string>
    var port: Option<nat>
    var path: string

    /** `new URL(url)`: a copy of an already parsed URL. */
    constructor (url: Url)
      ensures Value() == url
    {
      scheme := url.scheme;
      host := url.host;
      port := url.port;
      path := url.path;
    }

    function Value(): Url
      reads this
    {
      Url(scheme, host, port, path)
    }

    /** `this.protocol = value`. */
    method SetProtocol(value: string)
      modifies this
      ensures Value() == WithProtocol(old(Value()), value)
    {
      var updated := WithProtocol(Value(), value);
      scheme := updated.scheme;
      port := updated.port;
    }
  }

  /** A `Request`, with its URL already parsed; `requestMethod` is `request.method`. */
  datatype Request = Request(requestMethod: string, url: Url, headers: Headers)
}
