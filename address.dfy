/** The address extractor (`parse_server_address`): a pure chain of string splits
    yielding the (host, port) a descriptor points at, or nothing.

    Base64 decoding followed by JSON parsing is a library call; it is the parameter
    `decode`, which gives the decoded JSON object, or `None` whenever the library
    would raise or the JSON is not an object. */
module Address {

  import opened Wrappers
  import opened Text

  /** The schemes the extractor accepts; `ssr://` is not among them. */
  const ProbeSchemes: seq<string> := ["vmess://", "vless://", "trojan://", "ss://"]

  datatype Endpoint = Endpoint(host: string, port: int)

  /** A decoded JSON value, as far as the extractor looks at it. `JOther` stands for
      floats, lists and nested objects: their `str()` text and their truthiness. */
  datatype JsonValue =
    | JNull
    | JBool(b: bool)
    | JInt(i: int)
    | JString(s: string)
    | JOther(text: string, truthy: bool)
  {
    /** Python truthiness. */
    predicate Truthy() {
      match this
      case JNull => false
      case JBool(b) => b
      case JInt(i) => i != 0
      case JString(s) => s != []
      case JOther(_, t) => t
    }

    /** Python `str()`. */
    function Str(): string {
      match this
      case JNull => "None"
      case JBool(b) => if b then "True" else "False"
      case JInt(i) => DecimalString(i)
      case JString(s) => s
      case JOther(t, _) => t
    }
  }

  type JsonObject = map<string, JsonValue>

  /** `json.loads(base64.urlsafe_b64decode(s + "====").decode("utf-8", errors="ignore"))`
      when that yields an object; `None` when it raises or yields anything else. */
  type Decoder = string -> Option<JsonObject>

  /** `data.get(key)`. */
  function Get(data: JsonObject, key: string): JsonValue {
    if key in data then data[key] else JNull
  }

  /** `data.get("add") or data.get("address") or data.get("host")`. */
  function HostField(data: JsonObject): (v: JsonValue)
    ensures Get(data, "add").Truthy() ==> v == Get(data, "add")
    ensures !Get(data, "add").Truthy() && Get(data, "address").Truthy() ==> v == Get(data, "address")
    ensures !Get(data, "add").Truthy() && !Get(data, "address").Truthy() ==> v == Get(data, "host")
  {
    var add := Get(data, "add");
    if add.Truthy() then add
    else
      var address := Get(data, "address");
      if address.Truthy() then address else Get(data, "host")
  }

  /** `port and isinstance(port, (int, str)) and str(port).isdigit()`. */
  predicate PortAccepted(port: JsonValue) {
    port.Truthy() && (port.JInt? || port.JString?) && IsDigits(port.Str())
  }

  /** The decoded-JSON stage (main.py:68-75): an address field and a port that is a
      truthy `int` or `str` whose `str()` is all digits. */
  function JsonAddress(data: Option<JsonObject>): (r: Option<Endpoint>)
    ensures r.Some? ==> data.Some? && HostField(data.value).Truthy() && r.value.port >= 0
    ensures r.Some? <==> data.Some? && HostField(data.value).Truthy() && PortAccepted(Get(data.value, "port"))
    // `int(port)` is the value of the digits of `str(port)`, for an `int` as for a `str`
    ensures r.Some? ==>
              r.value == Endpoint(Strip(HostField(data.value).Str()), DigitsValue(Get(data.value, "port").Str()))
  {
    match data
    case None => None
    case Some(m) =>
      var add := HostField(m);
      var port := Get(m, "port");
      if add.Truthy() && PortAccepted(port) then
        if port.JInt? then
          DecimalStringDigits(port.i);
          Some(Endpoint(Strip(add.Str()), port.i))
        else Some(Endpoint(Strip(add.Str()), DigitsValue(port.s)))
      else None
  }

  /** The part of a descriptor that names the endpoint (main.py:58-61): after the scheme,
      before the first `#` and then before the first `?`, stripped, after the last `@`. */
  function EndpointText(afterScheme: string): (r: string)
    ensures '@' !in r && '#' !in r && '?' !in r
  {
    var noFragment := BeforeFirst(afterScheme, '#');
    var noQuery := BeforeFirst(noFragment, '?');
    SliceKeepsAbsent(noFragment, 0, |noQuery|, '#');
    var encoded := Strip(noQuery);
    var r := AfterLast(encoded, '@');
    SliceKeepsAbsent(encoded, |encoded| - |r|, |encoded|, '#');
    SliceKeepsAbsent(encoded, |encoded| - |r|, |encoded|, '?');
    r
  }

  /** A character absent from a string is absent from each of its slices. */
  lemma SliceKeepsAbsent(s: string, i: nat, j: nat, c: char)
    requires c !in s && i <= j <= |s|
    ensures c !in s[i..j]
  {
  }

  /** The first stage (main.py:58-75): a trailing `:<digits>` of the endpoint text gives
      the address directly; otherwise the endpoint text is decoded as base64 JSON. */
  function DirectAddress(afterScheme: string, decode: Decoder): (r: Option<Endpoint>)
    ensures r.Some? ==> r.value.port >= 0
    // an endpoint text without a `:` is never read as host and port directly
    ensures ':' !in EndpointText(afterScheme) ==> r == JsonAddress(decode(EndpointText(afterScheme)))
  {
    var hostPart := EndpointText(afterScheme);
    match RSplit(hostPart, ':')
    case Some((left, right)) =>
      if IsDigits(right) then Some(Endpoint(Strip(left), DigitsValue(right)))
      else JsonAddress(decode(hostPart))
    case None => JsonAddress(decode(hostPart))
  }

  /** The fallback (main.py:80-86): split the whole text after `://` at its last `:`,
      and accept only when what follows, cut at `#` and stripped, is all digits. */
  function FallbackAddress(config: string): (r: Option<Endpoint>)
    ensures r.Some? ==>
              exists left, right ::
                && AfterFirst(config, "://") == Some(left + ":" + right)
                && ':' !in right && IsDigits(Strip(BeforeFirst(right, '#')))
                && r.value == Endpoint(Strip(left), DigitsValue(Strip(BeforeFirst(right, '#'))))
  {
    match AfterFirst(config, "://")
    case None => None
    case Some(after) =>
      match RSplit(after, ':')
      case None => None
      case Some((left, right)) =>
        var portText := Strip(BeforeFirst(right, '#'));
        if IsDigits(portText) then
          assert AfterFirst(config, "://") == Some(left + ":" + right) by {
            assert after == left + ":" + right;
          }
          Some(Endpoint(Strip(left), DigitsValue(portText)))
        else None
  }

  /** `parse_server_address`. */
  function ParseServerAddress(config: string, decode: Decoder): (r: Option<Endpoint>)
    ensures r.Some? ==> StartsWithAny(config, ProbeSchemes)
    ensures r.Some? ==> r.value.port >= 0
  {
    if !StartsWithAny(config, ProbeSchemes) then None
    else
      var direct := match AfterFirst(config, "://")
                    case None => None
                    case Some(after) => DirectAddress(after, decode);
      if direct.Some? then direct else FallbackAddress(config)
  }

  /** For an accepted scheme, the text after the first `://` is the text after the scheme. */
  lemma AfterSchemeText(config: string, i: nat)
    requires i < |ProbeSchemes| && StartsWith(config, ProbeSchemes[i])
    ensures AfterFirst(config, "://") == Some(config[|ProbeSchemes[i]|..])
  {
    var q := ProbeSchemes[i][..|ProbeSchemes[i]| - 3];
    assert ProbeSchemes[i] == q + "://";
    assert ':' !in q;
    AfterFirstPrefix(config, q, "://");
  }

  /** No accepted scheme is a prefix of a string that begins with `ssr://`. */
  lemma SsrIsNotProbeScheme(config: string)
    requires StartsWith(config, "ssr://")
    ensures !StartsWithAny(config, ProbeSchemes)
  {
    assert config[0] == 's' && config[2] == 'r';
    forall i | 0 <= i < |ProbeSchemes| ensures !StartsWith(config, ProbeSchemes[i]) {
      assert ProbeSchemes[i][0] != 's' || ProbeSchemes[i][2] != 'r';
    }
  }

  /** An `ssr://` descriptor is kept by the parser but never yields an address, so it
      can never be reached. */
  lemma SsrNeverAddressed(config: string, decode: Decoder)
    requires StartsWith(config, "ssr://")
    ensures ParseServerAddress(config, decode) == None
  {
    SsrIsNotProbeScheme(config);
  }

  /** For an accepted scheme the extractor is the first stage on the text after the
      scheme, falling back to `FallbackAddress` when that gives nothing. */
  lemma ParseAfterScheme(config: string, i: nat, decode: Decoder)
    requires i < |ProbeSchemes| && StartsWith(config, ProbeSchemes[i])
    ensures ParseServerAddress(config, decode)
            == var direct := DirectAddress(config[|ProbeSchemes[i]|..], decode);
               if direct.Some? then direct else FallbackAddress(config)
  {
    AfterSchemeText(config, i);
  }

  /** A non-digit character does not occur in a string of digits. */
  lemma NotInDigits(port: string, c: char)
    requires IsDigits(port) && !IsDigit(c)
    ensures c !in port
  {
  }

  /** The endpoint text of `user@hp` followed by `?query` or `#tag` is `hp`, when `hp`
      ends with a digit and holds no `#`, `?` or `@`. */
  lemma UriEndpointText(user: string, hp: string, rest: string)
    requires '#' !in user && '?' !in user
    requires '#' !in hp && '?' !in hp && '@' !in hp
    requires hp != [] && IsDigit(hp[|hp| - 1])
    requires rest == [] || rest[0] == '?' || rest[0] == '#'
    ensures EndpointText(user + "@" + hp + rest) == hp
  {
    var core := user + "@" + hp;
    CutBeforeFirst(core, rest, '#', '?');
    var u := StripUserPart(user, hp);
    AfterLastSuffix(u, hp, '@');
  }

  /** The first stage on `user@host:port` followed by `?query` or `#tag` (or nothing). */
  lemma DirectUri(user: string, host: string, port: string, rest: string, decode: Decoder)
    requires '#' !in user && '?' !in user
    requires '#' !in host && '?' !in host && '@' !in host
    requires IsDigits(port)
    requires rest == [] || rest[0] == '?' || rest[0] == '#'
    ensures DirectAddress(user + "@" + host + ":" + port + rest, decode)
            == Some(Endpoint(Strip(host), DigitsValue(port)))
  {
    var hp := host + ":" + port;
    assert user + "@" + host + ":" + port + rest == user + "@" + hp + rest;
    NotInDigits(port, '#');
    NotInDigits(port, '?');
    NotInDigits(port, '@');
    NotInDigits(port, ':');
    assert hp[|hp| - 1] == port[|port| - 1];
    UriEndpointText(user, hp, rest);
    RSplitSuffix(host, port, ':');
    assert hp == host + [':'] + port;
  }

  /** A URI `scheme user@host:port` followed by `?query` or `#tag` (or nothing) yields
      the stripped host and the port: user-info, query and fragment are all ignored. */
  lemma UriAddress(scheme: nat, user: string, host: string, port: string, rest: string, decode: Decoder)
    requires scheme < |ProbeSchemes|
    requires '#' !in user && '?' !in user
    requires '#' !in host && '?' !in host && '@' !in host
    requires IsDigits(port)
    requires rest == [] || rest[0] == '?' || rest[0] == '#'
    ensures ParseServerAddress(ProbeSchemes[scheme] + user + "@" + host + ":" + port + rest, decode)
            == Some(Endpoint(Strip(host), DigitsValue(port)))
  {
    var p := ProbeSchemes[scheme];
    var after := user + "@" + host + ":" + port + rest;
    var config := p + after;
    assert ProbeSchemes[scheme] + user + "@" + host + ":" + port + rest == config;
    assert StartsWith(config, p) by { assert config[..|p|] == p; }
    ParseAfterScheme(config, scheme, decode);
    assert config[|p|..] == after;
    DirectUri(user, host, port, rest, decode);
  }

  /** The fallback answers every text whose part after `://` ends with `:<digits>`,
      optionally followed by `#tag` and white space. */
  lemma FallbackComplete(config: string, left: string, right: string)
    requires AfterFirst(config, "://") == Some(left + ":" + right)
    requires ':' !in right && IsDigits(Strip(BeforeFirst(right, '#')))
    ensures FallbackAddress(config)
            == Some(Endpoint(Strip(left), DigitsValue(Strip(BeforeFirst(right, '#')))))
  {
    assert left + ":" + right == left + [':'] + right;
    RSplitSuffix(left, right, ':');
  }

  /** The endpoint text of `hp` followed by `?query` or `#tag` (or nothing) is `hp`
      itself when `hp` holds no `#`, `?` or `@` and has no white space at its ends. */
  lemma PlainEndpointText(hp: string, rest: string)
    requires '#' !in hp && '?' !in hp && '@' !in hp && Stripped(hp)
    requires rest == [] || rest[0] == '?' || rest[0] == '#'
    ensures EndpointText(hp + rest) == hp
  {
    CutBeforeFirst(hp, rest, '#', '?');
  }

  /** The first stage on `host:port` without user info, followed by `?query` or `#tag`
      (or nothing). */
  lemma DirectPlain(host: string, port: string, rest: string, decode: Decoder)
    requires '#' !in host && '?' !in host && '@' !in host
    requires host != [] && !IsSpace(host[0])
    requires IsDigits(port)
    requires rest == [] || rest[0] == '?' || rest[0] == '#'
    ensures DirectAddress(host + ":" + port + rest, decode) == Some(Endpoint(Strip(host), DigitsValue(port)))
  {
    var hp := host + ":" + port;
    assert host + ":" + port + rest == hp + rest;
    NotInDigits(port, '#');
    NotInDigits(port, '?');
    NotInDigits(port, '@');
    NotInDigits(port, ':');
    assert hp[0] == host[0] && hp[|hp| - 1] == port[|port| - 1];
    PlainEndpointText(hp, rest);
    RSplitSuffix(host, port, ':');
    assert hp == host + [':'] + port;
  }

  /** A URI `scheme host:port` without user info, followed by `?query` or `#tag` (or
      nothing), yields the stripped host and the port. */
  lemma PlainUri(scheme: nat, host: string, port: string, rest: string, decode: Decoder)
    requires scheme < |ProbeSchemes|
    requires '#' !in host && '?' !in host && '@' !in host
    requires host != [] && !IsSpace(host[0])
    requires IsDigits(port)
    requires rest == [] || rest[0] == '?' || rest[0] == '#'
    ensures ParseServerAddress(ProbeSchemes[scheme] + host + ":" + port + rest, decode)
            == Some(Endpoint(Strip(host), DigitsValue(port)))
  {
    var p := ProbeSchemes[scheme];
    var after := host + ":" + port + rest;
    var config := p + after;
    assert ProbeSchemes[scheme] + host + ":" + port + rest == config;
    assert StartsWith(config, p) by { assert config[..|p|] == p; }
    ParseAfterScheme(config, scheme, decode);
    assert config[|p|..] == after;
    DirectPlain(host, port, rest, decode);
  }

  /** `vless://h:443` gives ("h", 443), whatever the decoder does. */
  lemma PlainExample(decode: Decoder)
    ensures ParseServerAddress("vless://h:443", decode) == Some(Endpoint("h", 443))
  {
    assert "vless://h:443" == ProbeSchemes[1] + "h" + ":" + "443" + [];
    Value443();
    PlainUri(1, "h", "443", [], decode);
  }

  /** The host may come from `address` (when `add` is missing or empty) and the port may
      be a JSON integer: a positive one is taken as it is. */
  lemma JsonIntPort(m: JsonObject, host: string, port: int)
    requires !Get(m, "add").Truthy() && Get(m, "address") == JString(host) && host != []
    requires Get(m, "port") == JInt(port) && port > 0
    ensures JsonAddress(Some(m)) == Some(Endpoint(Strip(host), port))
  {
    DecimalStringDigits(port);
  }

  /** A port of integer 0 is falsy, so the JSON stage refuses it. */
  lemma ZeroPort(m: JsonObject)
    requires Get(m, "port") == JInt(0)
    ensures JsonAddress(Some(m)) == None
  {
  }

  /** Cutting `core + rest` at `c1` and then at `c2` leaves `core` when neither occurs in
      `core` and `rest` starts with one of them (or is empty). */
  lemma CutBeforeFirst(core: string, rest: string, c1: char, c2: char)
    requires c1 !in core && c2 !in core
    requires rest == [] || rest[0] == c1 || rest[0] == c2
    ensures BeforeFirst(BeforeFirst(core + rest, c1), c2) == core
  {
    var a := BeforeFirst(core + rest, c1);
    BeforeFirstPrefix(core, rest, c1);
    if rest != [] && rest[0] == c1 {
      assert a == core;
      BeforeFirstPrefix(core, [], c1);
      assert BeforeFirst(core, c2) == core;
    } else {
      // `a` is `core` followed by a prefix of `rest` that is empty or starts with c2
      assert a == core || (|a| > |core| && a[|core|] == c2);
      if a == core {
      } else {
        BeforeFirstPrefix(core, a[|core|..], c2);
        assert core + a[|core|..] == a;
      }
    }
  }

  /** `BeforeFirst` of `core + rest` passes over `core` when `c` is not in it. */
  lemma {:induction false} BeforeFirstPrefix(core: string, rest: string, c: char)
    requires c !in core
    ensures BeforeFirst(core + rest, c) == core + BeforeFirst(rest, c)
  {
    if core != [] {
      assert (core + rest)[0] == core[0];
      assert (core + rest)[1..] == core[1..] + rest;
      BeforeFirstPrefix(core[1..], rest, c);
    } else {
      assert core + rest == rest;
    }
  }

  /** `Strip(user + "@" + tail)` keeps the `@` and everything after it when `tail` ends
      with a digit. */
  lemma StripUserPart(user: string, tail: string) returns (u: string)
    requires tail != [] && IsDigit(tail[|tail| - 1])
    ensures Strip(user + "@" + tail) == u + "@" + tail
  {
    var s := user + "@" + tail;
    assert !IsSpace(s[|user|]) && !IsSpace(s[|s| - 1]) by {
      assert s[|user|] == '@' && s[|s| - 1] == tail[|tail| - 1];
    }
    // stripping stops at the `@` at the latest and removes nothing at the end
    var k := StripFrom(s, |user|);
    u := user[k..];
    SuffixOfConcat(user, "@", tail, k);
  }

  /** A suffix of `a + m + b` that starts inside `a`. */
  lemma SuffixOfConcat(a: string, m: string, b: string, k: nat)
    requires k <= |a|
    ensures (a + m + b)[k..] == a[k..] + m + b
  {
  }

  /** `rsplit` of `l + [c] + r` at its last `c` when `c` is not in `r`. */
  lemma RSplitSuffix(l: string, r: string, c: char)
    requires c !in r
    ensures RSplit(l + [c] + r, c) == Some((l, r))
  {
    var s := l + [c] + r;
    assert s[|l|] == c;
    AfterLastSuffix(l, r, c);
    assert s[..|s| - |r| - 1] == l;
  }

  /** Example: `vless://user@203.0.113.5:443?x=1#tag` gives (203.0.113.5, 443). */
  lemma VlessExample(decode: Decoder)
    ensures ParseServerAddress("vless://user@203.0.113.5:443?x=1#tag", decode)
            == Some(Endpoint("203.0.113.5", 443))
  {
    VlessExampleParts();
    VlessExampleChars();
    Value443();
    VlessUri("vless://user@203.0.113.5:443?x=1#tag", "user", "203.0.113.5", "443", "?x=1#tag", decode);
    StrippedLiteral("203.0.113.5");
  }

  /** The `vless://` example, cut into its parts. */
  lemma VlessExampleParts()
    ensures "vless://user@203.0.113.5:443?x=1#tag" == "vless://" + "user" + "@" + "203.0.113.5" + ":" + "443" + "?x=1#tag"
  {
  }

  /** The parts of the `vless://` example hold none of the separators. */
  lemma VlessExampleChars()
    ensures '#' !in "user" && '?' !in "user"
    ensures '#' !in "203.0.113.5" && '?' !in "203.0.113.5" && '@' !in "203.0.113.5" && ':' !in "203.0.113.5"
    ensures "?x=1#tag"[0] == '?'
  {
  }

  /** Example: the host may itself hold `:`, as a bracketed IPv6 address does; only the
      last `:` separates the port, and the brackets are kept. */
  lemma BracketedHostExample(decode: Decoder)
    ensures ParseServerAddress("vless://u@[::1]:443", decode) == Some(Endpoint("[::1]", 443))
  {
    BracketedHostParts();
    Value443();
    VlessUri("vless://u@[::1]:443", "u", "[::1]", "443", [], decode);
    BracketedHostStripped();
  }

  /** The bracketed-host example, cut into its parts; the host holds no `#`, `?` or `@`. */
  lemma BracketedHostParts()
    ensures "vless://u@[::1]:443" == "vless://" + "u" + "@" + "[::1]" + ":" + "443" + []
    ensures '#' !in "[::1]" && '?' !in "[::1]" && '@' !in "[::1]"
  {
  }

  lemma BracketedHostStripped()
    ensures Strip("[::1]") == "[::1]"
  {
    assert Stripped("[::1]");
  }

  /** `UriAddress` for the `vless://` scheme. */
  lemma VlessUri(config: string, user: string, host: string, port: string, rest: string, decode: Decoder)
    requires config == "vless://" + user + "@" + host + ":" + port + rest
    requires '#' !in user && '?' !in user
    requires '#' !in host && '?' !in host && '@' !in host
    requires IsDigits(port)
    requires rest == [] || rest[0] == '?' || rest[0] == '#'
    ensures ParseServerAddress(config, decode) == Some(Endpoint(Strip(host), DigitsValue(port)))
  {
    UriAddress(1, user, host, port, rest, decode);
    assert ProbeSchemes[1] == "vless://";
  }

  /** A literal that starts and ends with a digit is its own stripped form. */
  lemma StrippedLiteral(s: string)
    requires s != [] && IsDigit(s[0]) && IsDigit(s[|s| - 1])
    ensures Strip(s) == s
  {
    assert Stripped(s);
  }

  lemma Value443()
    ensures IsDigits("443") && DigitsValue("443") == 443
  {
    assert "443"[..2] == "44" && "44"[..1] == "4" && "4"[..0] == "";
  }

  /** A body with no `#`, `?`, `@` or `:` goes, stripped, to the JSON stage. */
  lemma DirectBody(body: string, decode: Decoder)
    requires '#' !in body && '?' !in body && '@' !in body && ':' !in body
    ensures DirectAddress(body, decode) == JsonAddress(decode(Strip(body)))
  {
    assert EndpointText(body) == Strip(body);
    assert ':' !in Strip(body);
  }

  /** `{"add": host, "port": "<digits>"}` gives the stripped host and the port. */
  lemma JsonStringFields(m: JsonObject, host: string, port: string)
    requires Get(m, "add") == JString(host) && host != []
    requires Get(m, "port") == JString(port) && IsDigits(port)
    ensures JsonAddress(Some(m)) == Some(Endpoint(Strip(host), DigitsValue(port)))
  {
    assert HostField(m) == JString(host);
  }

  /** A base64 body that decodes to `{"add": host, "port": "<digits>"}` yields that host
      and port, when the body has no `:` of its own (base64 has none). */
  lemma JsonBodyAddress(scheme: nat, body: string, host: string, port: string, decode: Decoder)
    requires scheme < |ProbeSchemes|
    requires '#' !in body && '?' !in body && '@' !in body && ':' !in body
    requires decode(Strip(body)).Some?
    requires Get(decode(Strip(body)).value, "add") == JString(host) && host != []
    requires Get(decode(Strip(body)).value, "port") == JString(port) && IsDigits(port)
    ensures ParseServerAddress(ProbeSchemes[scheme] + body, decode)
            == Some(Endpoint(Strip(host), DigitsValue(port)))
  {
    var config := ProbeSchemes[scheme] + body;
    assert StartsWith(config, ProbeSchemes[scheme]) by {
      assert config[..|ProbeSchemes[scheme]|] == ProbeSchemes[scheme];
    }
    ParseAfterScheme(config, scheme, decode);
    assert config[|ProbeSchemes[scheme]|..] == body;
    DirectBody(body, decode);
    JsonStringFields(decode(Strip(body)).value, host, port);
  }

  /** Example: a `vmess://` body decoding to
      `{"add": "198.51.100.9", "port": "8443"}` gives (198.51.100.9, 8443). */
  lemma VmessJsonExample(body: string, decode: Decoder)
    requires '#' !in body && '?' !in body && '@' !in body && ':' !in body
    requires decode(Strip(body)) == Some(map["add" := JString("198.51.100.9"), "port" := JString("8443")])
    ensures ParseServerAddress("vmess://" + body, decode) == Some(Endpoint("198.51.100.9", 8443))
  {
    ExampleFields(decode(Strip(body)).value);
    Value8443();
    VmessBody(body, "198.51.100.9", "8443", decode);
    StrippedLiteral("198.51.100.9");
  }

  /** The fields of the JSON example. */
  lemma ExampleFields(m: JsonObject)
    requires m == map["add" := JString("198.51.100.9"), "port" := JString("8443")]
    ensures Get(m, "add") == JString("198.51.100.9") && Get(m, "port") == JString("8443")
  {
  }

  /** `JsonBodyAddress` for the `vmess://` scheme. */
  lemma VmessBody(body: string, host: string, port: string, decode: Decoder)
    requires '#' !in body && '?' !in body && '@' !in body && ':' !in body
    requires decode(Strip(body)).Some?
    requires Get(decode(Strip(body)).value, "add") == JString(host) && host != []
    requires Get(decode(Strip(body)).value, "port") == JString(port) && IsDigits(port)
    ensures ParseServerAddress("vmess://" + body, decode) == Some(Endpoint(Strip(host), DigitsValue(port)))
  {
    JsonBodyAddress(0, body, host, port, decode);
    assert ProbeSchemes[0] == "vmess://";
  }

  lemma Value8443()
    ensures IsDigits("8443") && DigitsValue("8443") == 8443
  {
    assert "8443"[..3] == "844" && "844"[..2] == "84" && "84"[..1] == "8" && "8"[..0] == "";
  }
}
