/**
  parse_url of https/client.c: scheme, host, port and path of a URL, with the
  ports 80 and 443 as defaults and refused for the wrong scheme.
 */
module UrlParser {
  import opened Octets
  import opened Wire
  import Partition

  datatype Url = Url(scheme: string, host: string, port: int, path: string)

  /** strchr: index of the first c, or the length. */
  function Find(s: string, c: char): (i: nat)
    ensures i <= |s|
    ensures i < |s| ==> s[i] == c
    ensures c !in s[..i]
  {
    if s == [] || s[0] == c then 0
    else
      var i := 1 + Find(s[1..], c);
      assert s[..i] == [s[0]] + s[1..][..i - 1];
      i
  }

  /** The number at the front of a text: leading space, a sign, digits. */
  function SignedValue(s: string): int {
    var s1 := Skip(s);
    if s1 != [] && s1[0] == '-' then 0 - Leading(s1[1..])
    else if s1 != [] && s1[0] == '+' then Leading(s1[1..])
    else Leading(s1)
  }

  function Leading(s: string): nat {
    Number(s[..DigitRun(s)])
  }

  /** atoi: the value is cut to an int. */
  function AtoI(s: string): int {
    Partition.I32(SignedValue(s))
  }

  /** Scheme, default port and the rest of the text. */
  function SplitScheme(url: string): (string, int, string) {
    if "http://" <= url then ("http", 80, url[7..])
    else if "https://" <= url then ("https", 443, url[8..])
    else ("https", 443, url)
  }

  /** The two pairs that the program turns down. */
  predicate Refused(scheme: string, port: int) {
    (port == 443 && scheme == "http") || (port == 80 && scheme == "https")
  }

  /** What follows the scheme: host, the text behind the colon of a port, path. */
  datatype Parts = Parts(host: string, port: Option<string>, path: string)

  /** A path is required; a colon counts only in front of the first slash. */
  function Cut(rest: string): Option<Parts> {
    var slash, colon := Find(rest, '/'), Find(rest, ':');
    if slash == |rest| then None
    else if colon < slash then Some(Parts(rest[..colon], Some(rest[colon + 1..]), rest[slash + 1..]))
    else Some(Parts(rest[..slash], None, rest[slash + 1..]))
  }

  function Judge(scheme: string, defaultPort: int, p: Parts): Option<Url> {
    var port := if p.port.Some? then AtoI(p.port.value) else defaultPort;
    if (p.port.Some? && port <= 0) || Refused(scheme, port) then None
    else Some(Url(scheme, p.host, port, p.path))
  }

  function ParseUrl(url: string): Option<Url> {
    var (scheme, defaultPort, rest) := SplitScheme(url);
    match Cut(rest)
    case None => None
    case Some(p) => Judge(scheme, defaultPort, p)
  }

  // ------------------------------------------------------------------
  // Round trip
  // ------------------------------------------------------------------

  datatype Scheme = Http | Https | Unnamed
  {
    function Name(): string {
      if Http? then "http" else "https"
    }

    function Prefix(): string {
      match this case Http => "http://" case Https => "https://" case Unnamed => ""
    }

    function DefaultPort(): int {
      if Http? then 80 else 443
    }
  }

  function PortText(port: Option<nat>): string {
    match port case None => "" case Some(p) => ":" + Decimal(p)
  }

  function Print(scheme: Scheme, host: string, port: Option<nat>, path: string): string {
    scheme.Prefix() + (host + PortText(port) + "/" + path)
  }

  lemma {:induction false} FindAt(a: string, c: char, rest: string)
    requires c !in a
    ensures Find(a + [c] + rest, c) == |a|
  {
    if a == [] {
      assert (a + [c] + rest)[0] == c;
    } else {
      assert (a + [c] + rest)[1..] == a[1..] + [c] + rest;
      FindAt(a[1..], c, rest);
    }
  }

  lemma {:induction false} FindLate(a: string, c: char, rest: string)
    requires c !in a
    ensures Find(a + rest, c) >= |a|
  {
    if a != [] {
      assert (a + rest)[1..] == a[1..] + rest;
      assert (a + rest)[0] == a[0];
      FindLate(a[1..], c, rest);
    }
  }

  lemma LeadingBack(p: nat, rest: string)
    requires rest == [] || !IsDigit(rest[0])
    ensures Leading(Decimal(p) + rest) == p
  {
    DigitsBack(Decimal(p), rest);
    NumberOfDecimal(p);
    assert (Decimal(p) + rest)[..|Decimal(p)|] == Decimal(p);
  }

  lemma AtoIBack(p: nat, rest: string)
    requires p < 0x8000_0000 && (rest == [] || !IsDigit(rest[0]))
    ensures AtoI(Decimal(p) + rest) == p
  {
    SkipToNumber(p, rest);
    assert IsDigit((Decimal(p) + rest)[0]);
    LeadingBack(p, rest);
    Partition.IntKept(p);
  }

  lemma DigitsAreNoMarks(p: nat)
    ensures ':' !in Decimal(p) && '/' !in Decimal(p)
  {
    assert !IsDigit(':') && !IsDigit('/');
  }

  /** What follows the scheme is taken apart as it was put together. */
  lemma RestBack(host: string, port: Option<nat>, path: string)
    requires ':' !in host && '/' !in host
    ensures var rest := host + PortText(port) + "/" + path;
            && Find(rest, '/') == |host + PortText(port)| < |rest|
            && (if port.Some? then Find(rest, ':') == |host| else Find(rest, ':') >= |host|)
            && rest[..|host|] == host && rest[Find(rest, '/') + 1..] == path
  {
    var rest := host + PortText(port) + "/" + path;
    if port.Some? {
      DigitsAreNoMarks(port.value);
      assert rest == host + [':'] + (Decimal(port.value) + "/" + path);
      FindAt(host, ':', Decimal(port.value) + "/" + path);
    } else {
      assert rest == host + ("/" + path);
      FindLate(host, ':', "/" + path);
    }
    FindAt(host + PortText(port), '/', path);
  }

  lemma NamedScheme(rest: string)
    ensures SplitScheme("http://" + rest) == ("http", 80, rest)
    ensures SplitScheme("https://" + rest) == ("https", 443, rest)
  {
    assert ("http://" + rest)[..7] == "http://" && ("http://" + rest)[7..] == rest;
    assert ("https://" + rest)[..8] == "https://" && ("https://" + rest)[8..] == rest;
    assert ("https://" + rest)[4] == 's' && "http://"[4] == ':';
  }

  /** In a text that begins with a name and "://", the first colon and the first slash are those. */
  lemma FirstMarks(rest: string, name: string)
    requires ':' !in name && '/' !in name && name + "://" <= rest
    ensures Find(rest, ':') == |name| && Find(rest, '/') == |name| + 1
  {
    var k := |name|;
    var tail := rest[k + 1..];
    assert rest == name + [':'] + tail;
    FindAt(name, ':', tail);
    assert rest == (name + [':']) + ['/'] + rest[k + 2..];
    FindAt(name + [':'], '/', rest[k + 2..]);
  }

  /** A host without marks, with or without a port, is not followed by "//". */
  lemma NotAPrefix(host: string, port: Option<nat>, path: string, name: string)
    requires ':' !in host && '/' !in host && ':' !in name && '/' !in name
    ensures !(name + "://" <= host + PortText(port) + "/" + path)
  {
    RestBack(host, port, path);
    if name + "://" <= host + PortText(port) + "/" + path {
      FirstMarks(host + PortText(port) + "/" + path, name);
    }
  }

  /** The printed prefix, or its absence, is recognised. */
  lemma SchemeBack(scheme: Scheme, host: string, port: Option<nat>, path: string)
    requires ':' !in host && '/' !in host
    ensures SplitScheme(Print(scheme, host, port, path))
            == (scheme.Name(), scheme.DefaultPort(), host + PortText(port) + "/" + path)
  {
    var rest := host + PortText(port) + "/" + path;
    if scheme.Unnamed? {
      NotAPrefix(host, port, path, "http");
      NotAPrefix(host, port, path, "https");
      assert "http://" == "http" + "://" && "https://" == "https" + "://";
      assert "" + rest == rest;
    } else {
      NamedScheme(rest);
    }
  }

  /** The text behind the colon. */
  lemma TailBack(host: string, p: nat, path: string)
    ensures (host + PortText(Some(p)) + "/" + path)[|host| + 1..] == Decimal(p) + ("/" + path)
  {
    var tail := Decimal(p) + ("/" + path);
    assert host + PortText(Some(p)) + "/" + path == (host + ":") + tail;
  }

  lemma CutWithPort(host: string, p: nat, path: string)
    requires ':' !in host && '/' !in host
    ensures Cut(host + PortText(Some(p)) + "/" + path) == Some(Parts(host, Some(Decimal(p) + ("/" + path)), path))
  {
    RestBack(host, Some(p), path);
    TailBack(host, p, path);
  }

  lemma CutWithoutPort(host: string, path: string)
    requires ':' !in host && '/' !in host
    ensures Cut(host + PortText(None) + "/" + path) == Some(Parts(host, None, path))
  {
    RestBack(host, None, path);
    assert host + PortText(None) == host;
  }

  /** A URL with a port, up to the largest int. */
  lemma WithPort(scheme: Scheme, host: string, p: nat, path: string)
    requires ':' !in host && '/' !in host && p < 0x8000_0000
    ensures ParseUrl(Print(scheme, host, Some(p), path))
            == if p == 0 || Refused(scheme.Name(), p) then None else Some(Url(scheme.Name(), host, p, path))
  {
    SchemeBack(scheme, host, Some(p), path);
    CutWithPort(host, p, path);
    AtoIBack(p, "/" + path);
  }

  lemma WithoutPort(scheme: Scheme, host: string, path: string)
    requires ':' !in host && '/' !in host
    ensures ParseUrl(Print(scheme, host, None, path))
            == if Refused(scheme.Name(), scheme.DefaultPort()) then None
               else Some(Url(scheme.Name(), host, scheme.DefaultPort(), path))
  {
    SchemeBack(scheme, host, None, path);
    CutWithoutPort(host, path);
  }

  /**
    A URL with a port parses to its parts, for every host without ':' and '/',
    every path and every port of an int.  Refused are port 0, port 443 with http,
    and port 80 with https, written or understood.
   */
  lemma UrlRoundTrip(host: string, p: nat, path: string)
    requires ':' !in host && '/' !in host && p < 0x8000_0000
    ensures ParseUrl("http://" + host + ":" + Decimal(p) + "/" + path)
            == if p == 0 || p == 443 then None else Some(Url("http", host, p, path))
    ensures ParseUrl("https://" + host + ":" + Decimal(p) + "/" + path)
            == if p == 0 || p == 80 then None else Some(Url("https", host, p, path))
    ensures ParseUrl(host + ":" + Decimal(p) + "/" + path)
            == if p == 0 || p == 80 then None else Some(Url("https", host, p, path))
  {
    PortedText("http://", host, p, path);
    PortedText("https://", host, p, path);
    PortedText("", host, p, path);
    assert "" + host == host;
    WithPort(Http, host, p, path);
    WithPort(Https, host, p, path);
    WithPort(Unnamed, host, p, path);
  }

  lemma PortedText(prefix: string, host: string, p: nat, path: string)
    ensures prefix + (host + PortText(Some(p)) + "/" + path) == prefix + host + ":" + Decimal(p) + "/" + path
  {
  }

  lemma PlainText(prefix: string, host: string, path: string)
    ensures prefix + (host + PortText(None) + "/" + path) == prefix + host + "/" + path
  {
  }

  /** Every URL without a port parses, with port 80 for http and 443 for https, written or understood. */
  lemma DefaultPorts(host: string, path: string)
    requires ':' !in host && '/' !in host
    ensures ParseUrl("http://" + host + "/" + path) == Some(Url("http", host, 80, path))
    ensures ParseUrl("https://" + host + "/" + path) == Some(Url("https", host, 443, path))
    ensures ParseUrl(host + "/" + path) == Some(Url("https", host, 443, path))
  {
    PlainText("http://", host, path);
    PlainText("https://", host, path);
    PlainText("", host, path);
    assert "" + host == host;
    WithoutPort(Http, host, path);
    WithoutPort(Https, host, path);
    WithoutPort(Unnamed, host, path);
  }

  lemma NoMark(s: string, c: char)
    ensures Find(s, c) == |s| <==> c !in s
  {
    assert s[..|s|] == s;
  }

  /** Without a slash behind the scheme a URL is refused. */
  lemma PathIsRequired(rest: string)
    requires '/' !in rest
    ensures ParseUrl("http://" + rest).None? && ParseUrl("https://" + rest).None? && ParseUrl(rest).None?
  {
    NamedScheme(rest);
    NoMark(rest, '/');
  }

  /** A text behind the colon that does not stand for a positive number. */
  ghost predicate NotPositive(text: string) {
    || text == "" || (!IsDigit(text[0]) && !IsSpace(text[0]) && text[0] != '+' && text[0] != '-')
    || (exists p: nat, more :: p <= 0x8000_0000 && (more == "" || !IsDigit(more[0])) && text == "-" + Decimal(p) + more)
  }

  lemma NegativeNumber(p: nat, more: string)
    requires p <= 0x8000_0000 && (more == "" || !IsDigit(more[0]))
    ensures AtoI("-" + Decimal(p) + more) == 0 - p
  {
    var s := "-" + Decimal(p) + more;
    assert s[0] == '-' && Skip(s) == s && s[1..] == Decimal(p) + more;
    LeadingBack(p, more);
    Partition.IntKept(0 - p);
  }

  lemma NotPositiveIsRefused(text: string)
    requires NotPositive(text)
    ensures AtoI(text) <= 0
  {
    if text == "" || (!IsDigit(text[0]) && !IsSpace(text[0]) && text[0] != '+' && text[0] != '-') {
      assert Skip(text) == text && text[..0] == "";
      Partition.IntKept(0);
    } else {
      var p: nat, more :| p <= 0x8000_0000 && (more == "" || !IsDigit(more[0])) && text == "-" + Decimal(p) + more;
      NegativeNumber(p, more);
    }
  }

  /** A colon in front of the first slash needs a positive number behind it: anything else is refused. */
  lemma PortMustBePositive(host: string, text: string)
    requires ':' !in host && '/' !in host && '/' in text && NotPositive(text)
    ensures ParseUrl("http://" + (host + ":" + text)).None?
    ensures ParseUrl("https://" + (host + ":" + text)).None?
  {
    NamedScheme(host + ":" + text);
    CutAtColon(host, text);
    NotPositiveIsRefused(text);
  }

  lemma CutAtColon(host: string, text: string)
    requires ':' !in host && '/' !in host && '/' in text
    ensures Cut(host + ":" + text).Some? && Cut(host + ":" + text).value.port == Some(text)
  {
    var rest := host + ":" + text;
    assert rest == host + [':'] + text;
    FindAt(host, ':', text);
    FindLate(host + ":", '/', text);
    NoMark(rest, '/');
    assert '/' in rest;
    assert rest[|host| + 1..] == text;
  }

  // ------------------------------------------------------------------
  // The function on its buffer
  // ------------------------------------------------------------------

  /** strchr from position `from`. */
  method StrChr(url: array<char>, from: nat, c: char) returns (i: nat)
    requires from <= url.Length
    ensures i == Find(url[from..], c)
  {
    ghost var s := url[from..];
    i := 0;
    while from + i < url.Length && url[from + i] != c
      invariant 0 <= i <= |s|
      invariant c !in s[..i]
    {
      assert s[..i + 1] == s[..i] + [s[i]];
      i := i + 1;
    }
    FindIs(s, c, i);
  }

  lemma FindIs(s: string, c: char, i: nat)
    requires i <= |s| && c !in s[..i] && (i < |s| ==> s[i] == c)
    ensures Find(s, c) == i
  {
    if i < |s| {
      assert s == s[..i] + [c] + s[i + 1..];
      FindAt(s[..i], c, s[i + 1..]);
    } else {
      assert s == s[..i] + [];
      FindLate(s[..i], c, []);
    }
  }

  /** Everything behind the scheme; the colon in front of a port is overwritten with NUL. */
  method CutInPlace(url: array<char>, start: nat) returns (r: Option<Parts>)
    requires start <= url.Length
    modifies url
    ensures r == Cut(old(url[start..]))
    ensures if r.Some? && r.value.port.Some?
            then url[..] == old(url[..])[start + |r.value.host| := '\0'] else url[..] == old(url[..])
  {
    ghost var rest := url[start..];
    var slash := StrChr(url, start, '/');
    if start + slash == url.Length {
      return None;
    }
    var path := url[start + slash + 1..];
    assert path == rest[slash + 1..];
    var colon := StrChr(url, start, ':');
    if colon < slash {
      var host, port := url[start..start + colon], url[start + colon + 1..];
      assert host == rest[..colon] && port == rest[colon + 1..];
      url[start + colon] := '\0';
      r := Some(Parts(host, Some(port), path));
    } else {
      var host := url[start..start + slash];
      assert host == rest[..slash];
      r := Some(Parts(host, None, path));
    }
  }

  /** parse_url. */
  method ParseInPlace(url: array<char>) returns (r: Option<Url>)
    modifies url
    ensures r == ParseUrl(old(url[..]))
  {
    var (scheme, defaultPort, rest) := SplitScheme(url[..]);
    var start := url.Length - |rest|;
    assert url[start..] == rest;
    var parts := CutInPlace(url, start);
    if parts.None? {
      return None;
    }
    r := Judge(scheme, defaultPort, parts.value);
  }
}
