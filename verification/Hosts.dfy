/** Host names with ports: the Host of a request and the address of an upstream. */
module Hosts {
  import opened Prelude
  import opened Text
  import opened Sequences
  import opened Utf8Slices

  const COLON: byte := 58

  /** The last occurrence of an octet. */
  function FindLast(s: Str, b: byte): (r: Option<nat>)
    ensures r.Some? ==> r.value < |s| && s[r.value] == b && forall k | r.value < k < |s| :: s[k] != b
    ensures r.None? ==> b !in s
  {
    if s == [] then None
    else if s[|s| - 1] == b then Some(|s| - 1)
    else FindLast(s[..|s| - 1], b)
  }

  function FindFirst(s: Str, b: byte, i: nat := 0): (r: Option<nat>)
    ensures r.Some? ==> i <= r.value < |s| && s[r.value] == b && forall k | i <= k < r.value :: s[k] != b
    ensures r.None? ==> forall k | i <= k < |s| :: s[k] != b
    decreases |s| - i
  {
    if i >= |s| then None else if s[i] == b then Some(i) else FindFirst(s, b, i + 1)
  }

  predicate Digits(s: Str) {
    s != [] && forall i | 0 <= i < |s| :: 48 <= s[i] <= 57
  }

  /** parse::<u16>() */
  function ParsePort(s: Str): (port: Option<nat>)
    ensures port.Some? ==> port.value < 65536
  {
    var digits := if s != [] && s[0] == 43 then s[1..] else s;
    if Digits(digits) && DecimalValue(digits) < 65536 then Some(DecimalValue(digits)) else None
  }

  /** normalize_host: a host without its port. */
  function NormalizeHost(value: Str): Option<Str> {
    var host := Trim(value);
    if host == [] then None
    else if host[0] == 91 then
      match FindFirst(host, 93)
      case None => Some(host)
      case Some(i) => Some(host[..i] + [93])
    else
      match FindLast(host, COLON)
      case None => Some(host)
      case Some(i) =>
        if COLON !in host[..i] && ParsePort(host[i + 1..]).Some? then Some(host[..i]) else Some(host)
  }

  /** The part of an address up to its path. */
  function Authority(rest: Str): Str {
    match FindFirst(rest, 47)
    case None => rest
    case Some(i) => rest[..i]
  }

  /** parse_http_upstream: the host and the port of an address. */
  function ParseHttpUpstream(value: Str): (r: Option<(Str, nat)>)
    ensures r.Some? ==> Trim(r.value.0) != [] && 0 < r.value.1 < 65536
  {
    var scheme := Ascii("http://");
    if !(scheme <= value) then None
    else
      var rest := value[|scheme|..];
      if rest == [] || rest[0] == 47 then None
      else
        var authority := Authority(rest);
        if 64 in authority || Trim(authority) == [] then None
        else
          var parts := HostAndPort(authority);
          if parts.None? || Trim(parts.value.0) == [] || parts.value.1 == 0 then None else parts
  }

  function HostAndPort(authority: Str): (r: Option<(Str, nat)>)
    ensures r.Some? ==> r.value.1 < 65536
  {
    match FindLast(authority, COLON)
    case None => Some((authority, 80))
    case Some(i) =>
      match ParsePort(authority[i + 1..])
      case None => None
      case Some(port) => Some((authority[..i], port))
  }

  /** An address without a port or a path is its host, whatever octets are in it. */
  lemma HostIsTaken(host: Str)
    requires Trim(host) != [] && 47 !in host && 64 !in host && COLON !in host
    ensures ParseHttpUpstream(Ascii("http://") + host) == Some((host, 80))
  {
    var scheme := Ascii("http://");
    assert (scheme + host)[|scheme|..] == host;
    assert host != [];
    assert FindFirst(host, 47) == None;
    assert FindLast(host, COLON) == None;
  }

  lemma {:induction false} LastIs(s: Str, b: byte, i: nat)
    requires i < |s| && s[i] == b && forall k | i < k < |s| :: s[k] != b
    ensures FindLast(s, b) == Some(i)
  {}

  lemma PortReads(port: nat)
    requires port < 65536
    ensures ParsePort(Decimal(port)) == Some(port) && COLON !in Decimal(port)
  {
    DecimalRoundTrip(port);
    assert forall i | 0 <= i < |Decimal(port)| :: Decimal(port)[i] <= 57;
  }

  lemma LastColon(host: Str, port: Str)
    requires COLON !in port
    ensures var value := host + [COLON] + port;
            FindLast(value, COLON) == Some(|host|) && value[..|host|] == host && value[|host| + 1..] == port
  {
    var value := host + [COLON] + port;
    assert forall k | |host| < k < |value| :: value[k] == port[k - |host| - 1];
    LastIs(value, COLON, |host|);
  }

  lemma {:induction false} HostBeforePort(host: Str, port: Str)
    requires host != [] && host[0] != 91 && COLON !in host && COLON !in port && ParsePort(port).Some?
    requires Trim(host + [COLON] + port) == host + [COLON] + port
    ensures NormalizeHost(host + [COLON] + port) == Some(host)
  {
    LastColon(host, port);
  }

  lemma TrimmedWithPort(host: Str, port: nat)
    requires host != [] && Utf8(host) && Trimmed(host)
    ensures Trim(host + [COLON] + Decimal(port)) == host + [COLON] + Decimal(port)
  {
    var digits := Decimal(port);
    AsciiIsUtf8(digits);
    assert forall i: nat | i < |digits| :: SpaceAt(digits, i) == 0;
    TrimEndOf(digits);
    assert host + [COLON] + digits == host + ([COLON] + digits);
    SpacesOfConcat(host, [COLON] + digits, 0);
    TrimEndConcat(host + [COLON], digits);
  }

  lemma {:induction false} FirstIs(s: Str, b: byte, i: nat, from: nat)
    requires from <= i < |s| && s[i] == b && forall k | from <= k < i :: s[k] != b
    ensures FindFirst(s, b, from) == Some(i)
    decreases i - from
  {
    if from < i {
      FirstIs(s, b, i, from + 1);
    }
  }

  // ----- Addresses of upstreams

  /** Digits, with or without a plus in front, that say a number below 65536. */
  predicate SaysPort(text: Str, port: nat) {
    var digits := if text != [] && text[0] == 43 then text[1..] else text;
    Digits(digits) && DecimalValue(digits) == port < 65536
  }

  /** The authority is a host alone, on port 80, or a host, the last colon and a port. */
  predicate Splits(authority: Str, host: Str, port: nat) {
    if COLON in authority then
      && |host| < |authority| && authority[..|host|] == host && authority[|host|] == COLON
      && COLON !in authority[|host| + 1..] && SaysPort(authority[|host| + 1..], port)
    else authority == host && port == 80
  }

  /** An address is http, an authority without a user, and perhaps a path; its host is not blank, and its
      port not zero. */
  predicate AddressIs(value: Str, authority: Str, path: Str, host: Str, port: nat) {
    && value == Ascii("http://") + authority + path
    && 47 !in authority && 64 !in authority && (path == [] || path[0] == 47)
    && Splits(authority, host, port) && Trim(host) != [] && port != 0
  }

  lemma NoneBehind(s: Str, b: byte, i: nat)
    requires i < |s| && forall k | i < k < |s| :: s[k] != b
    ensures b !in s[i + 1..]
  {}

  lemma SplitAt(authority: Str, host: Str)
    requires |host| < |authority| && authority[..|host|] == host && authority[|host|] == COLON
    requires COLON !in authority[|host| + 1..]
    ensures FindLast(authority, COLON) == Some(|host|)
  {
    AroundOne(authority, |host|);
    LastColon(host, authority[|host| + 1..]);
  }

  lemma AuthoritySplits(authority: Str, host: Str, port: nat)
    ensures Splits(authority, host, port) <==> HostAndPort(authority) == Some((host, port))
  {
    var last := FindLast(authority, COLON);
    if last.Some? {
      NoneBehind(authority, COLON, last.value);
    }
    if COLON in authority && Splits(authority, host, port) {
      SplitAt(authority, host);
    }
  }

  lemma {:induction false} FirstSlash(authority: Str, path: Str)
    requires 47 !in authority && (path == [] || path[0] == 47)
    ensures FindFirst(authority + path, 47) == if path == [] then None else Some(|authority|)
  {
    var rest := authority + path;
    forall k | 0 <= k < |authority| ensures rest[k] != 47 {
      assert rest[k] == authority[k];
    }
    if path != [] {
      FirstIs(rest, 47, |authority|, 0);
    }
  }

  lemma {:induction false} AuthorityTaken(authority: Str, path: Str)
    requires 47 !in authority && (path == [] || path[0] == 47) && authority != []
    ensures authority + path != [] && (authority + path)[0] != 47 && Authority(authority + path) == authority
  {
    FirstSlash(authority, path);
    assert (authority + path)[0] == authority[0];
    assert (authority + path)[..|authority|] == authority;
    Nothing(authority);
  }

  lemma {:induction false} AddressTaken(value: Str, authority: Str, path: Str, host: Str, port: nat)
    requires AddressIs(value, authority, path, host, port)
    ensures ParseHttpUpstream(value) == Some((host, port))
  {
    AuthorityNotBlank(authority, host, port);
    AuthorityTaken(authority, path);
    AuthoritySplits(authority, host, port);
    Assoc(Ascii("http://"), authority, path);
    BehindScheme(Ascii("http://"), authority + path);
  }

  lemma BehindScheme(scheme: Str, rest: Str)
    ensures scheme <= scheme + rest && (scheme + rest)[|scheme|..] == rest
  {}

  lemma SpaceHasNoColon(s: Str, i: nat)
    requires i + SpaceAt(s, i) <= |s|
    ensures COLON !in s[i..i + SpaceAt(s, i)]
  {}

  lemma InRest(s: Str, n: nat)
    requires n <= |s| && COLON in s
    ensures COLON !in s[..n] ==> COLON in s[n..]
    ensures COLON !in s[n..] ==> COLON in s[..n]
  {
    assert s == s[..n] + s[n..];
  }

  lemma {:induction false} TrimStartKeeps(s: Str)
    requires COLON in s
    ensures COLON in TrimStart(s)
    decreases |s|
  {
    var n := SpaceAt(s, 0);
    if n > 0 {
      SpaceHasNoColon(s, 0);
      assert s[0..n] == s[..n];
      InRest(s, n);
      TrimStartKeeps(s[n..]);
    }
  }

  lemma {:induction false} CutEndKeeps(s: Str, k: nat)
    requires COLON in s && 0 < k <= |s| && SpaceAt(s, |s| - k) == k
    ensures COLON in s[..|s| - k]
  {
    SpaceHasNoColon(s, |s| - k);
    assert s[|s| - k..|s|] == s[|s| - k..];
    InRest(s, |s| - k);
  }

  lemma {:induction false} TrimEndKeeps(s: Str)
    requires COLON in s
    ensures COLON in TrimEnd(s)
    decreases |s|
  {
    var n := |s|;
    if n >= 1 && SpaceAt(s, n - 1) == 1 {
      CutEndKeeps(s, 1);
      TrimEndKeeps(s[..n - 1]);
    } else if n >= 2 && SpaceAt(s, n - 2) == 2 {
      CutEndKeeps(s, 2);
      TrimEndKeeps(s[..n - 2]);
    } else if n >= 3 && SpaceAt(s, n - 3) == 3 {
      CutEndKeeps(s, 3);
      TrimEndKeeps(s[..n - 3]);
    }
  }

  lemma AuthorityNotBlank(authority: Str, host: Str, port: nat)
    requires Splits(authority, host, port) && Trim(host) != []
    ensures authority != [] && Trim(authority) != []
  {
    if COLON in authority {
      TrimStartKeeps(authority);
      TrimEndKeeps(TrimStart(authority));
    }
  }

  lemma {:induction false} AuthorityCut(rest: Str) returns (path: Str)
    ensures rest == Authority(rest) + path && 47 !in Authority(rest) && (path == [] || path[0] == 47)
  {
    match FindFirst(rest, 47)
    case None =>
      path := [];
      Nothing(rest);
    case Some(i) =>
      path := rest[i..];
      assert forall k | 0 <= k < i :: rest[..i][k] == rest[k];
  }

  lemma {:induction false} AddressCut(value: Str, host: Str, port: nat) returns (authority: Str, path: Str)
    requires ParseHttpUpstream(value) == Some((host, port))
    ensures AddressIs(value, authority, path, host, port)
  {
    var scheme := Ascii("http://");
    var rest := value[|scheme|..];
    assert value == scheme + rest;
    authority := Authority(rest);
    path := AuthorityCut(rest);
    Assoc(scheme, authority, path);
    AuthoritySplits(authority, host, port);
  }

  /** What an address of an upstream is taken for, for every text. */
  lemma AddressReads(value: Str, host: Str, port: nat)
    ensures ParseHttpUpstream(value) == Some((host, port)) <==>
            exists authority, path :: AddressIs(value, authority, path, host, port)
  {
    if ParseHttpUpstream(value) == Some((host, port)) {
      var authority, path := AddressCut(value, host, port);
    }
    forall authority, path | AddressIs(value, authority, path, host, port)
      ensures ParseHttpUpstream(value) == Some((host, port))
    {
      AddressTaken(value, authority, path, host, port);
    }
  }

  /** A name or an address: one in brackets ends with the first that closes, and only there has
      colons. */
  predicate HostForm(host: Str) {
    host != [] &&
    if host[0] == 91 then host[|host| - 1] == 93 && 93 !in host[..|host| - 1] else COLON !in host
  }

  lemma {:induction false} BracketsBeforePort(host: Str, behind: Str)
    requires HostForm(host) && host[0] == 91 && Trim(host + behind) == host + behind
    ensures NormalizeHost(host + behind) == Some(host)
  {
    var value, n := host + behind, |host| - 1;
    forall k | 0 <= k < n ensures value[k] != 93 {
      assert host[..n][k] != 93;
    }
    FirstIs(value, 93, n, 0);
    assert value[..n] + [93] == host;
  }

  /** A port in the Host of a request makes no difference, behind a name or behind an address in
      brackets. */
  lemma PortIsIrrelevant(host: Str, port: nat)
    requires HostForm(host) && Utf8(host) && Trimmed(host) && port < 65536
    ensures NormalizeHost(host + [COLON] + Decimal(port)) == NormalizeHost(host) == Some(host)
  {
    PortReads(port);
    TrimmedWithPort(host, port);
    assert Trim(host) == host;
    if host[0] == 91 {
      assert host + [COLON] + Decimal(port) == host + ([COLON] + Decimal(port));
      assert host + [] == host;
      BracketsBeforePort(host, [COLON] + Decimal(port));
      BracketsBeforePort(host, []);
    } else {
      HostBeforePort(host, Decimal(port));
    }
  }
}
