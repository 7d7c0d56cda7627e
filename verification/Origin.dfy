/**
 * Web origins in canonical form: parsing an allowlist entry, reading the origin of
 * a request URL, and writing an origin out again.
 *
 * Whether a text is an IPv6 address is a parameter.
 */
module Origin {
  import opened Wrappers
  import opened Texts

  datatype Scheme = Http | Https

  datatype Origin = Origin(scheme: Scheme, host: string, port: nat)

  datatype Malformed = BadCharacter | Wildcard | NoScheme | OtherScheme | HasPath | HasQuery | HasCredentials
    | NoHost | BadPort | BadHost

  type Ipv6 = string -> bool

  // ---------------------------------------------------------------- characters

  predicate IsControl(c: char) {
    c as int <= 0x1F || 0x7F <= c as int <= 0x9F
  }

  /** Characters that would end whatever an origin is later written into. */
  predicate Refused(c: char) {
    IsSpace(c) || IsControl(c) || c == ';' || c == '\'' || c == '"' || c == ','
  }

  predicate IsAlnum(c: char) {
    IsDigit(c) || 'A' <= c <= 'Z' || 'a' <= c <= 'z'
  }

  function LowerChar(c: char): char {
    if 'A' <= c <= 'Z' then c + 32 as char else c
  }

  function Lower(s: string): (r: string)
    ensures |r| == |s| && forall k :: 0 <= k < |s| ==> r[k] == LowerChar(s[k])
  {
    seq(|s|, k requires 0 <= k < |s| => LowerChar(s[k]))
  }

  /** Characters that cannot stand in the authority part. */
  predicate Ends(c: char) { c == '/' || c == '?' || c == '#' }

  predicate InAuthority(c: char) {
    !Refused(c) && c != '*' && !Ends(c) && c != '@'
  }

  // --------------------------------------------------------------------- pieces

  function Sep(): string { "://" }

  function SchemeText(s: Scheme): string {
    match s case Http => "http" case Https => "https"
  }

  function DefaultPort(s: Scheme): nat {
    match s case Http => 80 case Https => 443
  }

  /** Where the first separator starts. */
  function FindSep(s: string): Option<nat> {
    if |s| < 3 then None
    else if s[..3] == Sep() then Some(0)
    else match FindSep(s[1..])
      case Some(k) => Some(k + 1)
      case None => None
  }

  function FirstOf(s: string, c: char): (k: Option<nat>)
    ensures k.Some? ==> k.value < |s| && s[k.value] == c && c !in s[..k.value]
    ensures k.None? ==> c !in s
  {
    if s == "" then None
    else if s[0] == c then Some(0)
    else match FirstOf(s[1..], c)
      case Some(k) => assert s[..k + 1] == [s[0]] + s[1..][..k]; Some(k + 1)
      case None => None
  }

  function LastOf(s: string, c: char): (k: Option<nat>)
    ensures k.Some? ==> k.value < |s| && s[k.value] == c && c !in s[k.value + 1..]
    ensures k.None? ==> c !in s
    decreases |s|
  {
    if s == "" then None
    else if s[|s| - 1] == c then Some(|s| - 1)
    else
      assert s == s[..|s| - 1] + [s[|s| - 1]];
      match LastOf(s[..|s| - 1], c)
      case Some(k) => assert s[k + 1..] == s[..|s| - 1][k + 1..] + [s[|s| - 1]]; Some(k)
      case None => None
  }

  // ---------------------------------------------------------------------- ports

  /** Decimal digits, with an optional plus sign and any number of leading zeros, up to 65535. */
  function ParsePort(s: string): Option<nat> {
    var digits := if s != "" && s[0] == '+' then s[1..] else s;
    if digits != "" && Digital(digits) && Number(digits) <= 65535 then Some(Number(digits)) else None
  }

  // ------------------------------------------------------------------ authority

  function SplitAuthority(rest: string, scheme: Scheme): Option<(string, nat)> {
    match FirstOf(rest, ']')
    case Some(end) =>
      var tail := rest[end + 1..];
      if tail == "" then Some((rest[..end + 1], DefaultPort(scheme)))
      else if tail[0] == ':' && ParsePort(tail[1..]).Some? then Some((rest[..end + 1], ParsePort(tail[1..]).value))
      else None
    case None =>
      match LastOf(rest, ':')
      case Some(k) =>
        if ParsePort(rest[k + 1..]).Some? then Some((rest[..k], ParsePort(rest[k + 1..]).value)) else None
      case None => Some((rest, DefaultPort(scheme)))
  }

  predicate Bracketed(host: string) {
    |host| >= 2 && host[0] == '[' && host[|host| - 1] == ']'
  }

  predicate ValidLabel(part: string) {
    && 1 <= |part| <= 63 && part[0] != '-' && part[|part| - 1] != '-'
    && forall k :: 0 <= k < |part| ==> IsAlnum(part[k]) || part[k] == '-'
  }

  predicate ValidHost(host: string, ip6: Ipv6) {
    if Bracketed(host) then ip6(host[1..|host| - 1])
    else
      && 1 <= |host| <= 253 && host[0] != '.' && host[|host| - 1] != '.'
      && forall k :: 0 <= k < |Pieces(host, '.')| ==> ValidLabel(Pieces(host, '.')[k])
  }

  function Tidied(rest: string): string {
    if rest != "" && rest[|rest| - 1] == '/' then rest[..|rest| - 1] else rest
  }

  function SchemeOf(text: string): Option<Scheme> {
    if Lower(text) == SchemeText(Http) then Some(Http)
    else if Lower(text) == SchemeText(Https) then Some(Https)
    else None
  }

  function ParseRest(scheme: Scheme, rest: string, ip6: Ipv6): Result<Origin, Malformed> {
    if '/' in rest then Err(HasPath)
    else if '?' in rest || '#' in rest then Err(HasQuery)
    else if '@' in rest then Err(HasCredentials)
    else if rest == "" then Err(NoHost)
    else match SplitAuthority(rest, scheme)
      case None => Err(BadPort)
      case Some((host, port)) =>
        if ValidHost(Lower(host), ip6) then Ok(Origin(scheme, Lower(host), port)) else Err(BadHost)
  }

  /** Parses exactly an origin, as an allowlist entry must be. */
  function Parse(value: string, ip6: Ipv6): Result<Origin, Malformed> {
    if exists k :: 0 <= k < |value| && Refused(value[k]) then Err(BadCharacter)
    else if '*' in value then Err(Wildcard)
    else match FindSep(value)
      case None => Err(NoScheme)
      case Some(k) =>
        if k + 3 > |value| then Err(NoScheme)
        else match SchemeOf(value[..k])
          case None => Err(OtherScheme)
          case Some(scheme) => ParseRest(scheme, Tidied(value[k + 3..]), ip6)
  }

  function UpToEnd(s: string): string {
    if s == "" || Ends(s[0]) then "" else [s[0]] + UpToEnd(s[1..])
  }

  /** The origin of a URL an application asked for: path, query and fragment discarded. */
  function OfUrl(url: string, ip6: Ipv6): Result<Origin, Malformed> {
    match FindSep(url)
    case None => Err(NoScheme)
    case Some(k) =>
      if k + 3 > |url| then Err(NoScheme)
      else Parse(url[..k] + Sep() + UpToEnd(url[k + 3..]), ip6)
  }

  function PortText(o: Origin): string {
    if o.port == DefaultPort(o.scheme) then "" else [':'] + Decimal(o.port)
  }

  function Display(o: Origin): string {
    SchemeText(o.scheme) + Sep() + (o.host + PortText(o))
  }

  // --------------------------------------------------------------- canonical form

  /** What parsing yields, said without parsing. */
  predicate Canonical(o: Origin, ip6: Ipv6) {
    && Lower(o.host) == o.host && ValidHost(o.host, ip6) && o.port <= 65535
    && (forall k :: 0 <= k < |o.host| ==> InAuthority(o.host[k]))
    && (Bracketed(o.host) ==> ']' !in o.host[..|o.host| - 1])
  }

  lemma LowerTwice(s: string)
    ensures Lower(Lower(s)) == Lower(s)
  {
  }

  predicate NameCharacters(s: string) {
    forall k :: 0 <= k < |s| ==> IsAlnum(s[k]) || s[k] == '-' || s[k] == '.'
  }

  /** Valid names are made of letters, digits, dashes and dots only. */
  lemma NamesArePlain(host: string, ip6: Ipv6)
    requires ValidHost(host, ip6) && !Bracketed(host)
    ensures NameCharacters(host)
  {
    PiecesJoin(host, '.');
    JoinCharacters(Pieces(host, '.'));
  }

  lemma {:induction false} JoinCharacters(pieces: seq<string>)
    requires |pieces| >= 1 && forall k :: 0 <= k < |pieces| ==> ValidLabel(pieces[k])
    ensures NameCharacters(Join(pieces, '.'))
  {
    assert ValidLabel(pieces[0]);
    if |pieces| > 1 {
      JoinCharacters(pieces[1..]);
    }
  }

  lemma AuthorityParts(rest: string, scheme: Scheme, host: string, port: nat)
    requires SplitAuthority(rest, scheme) == Some((host, port))
    ensures host <= rest && port <= 65535
    ensures ']' in host ==> host != "" && ']' !in host[..|host| - 1]
  {
    if FirstOf(rest, ']').Some? {
      var end := FirstOf(rest, ']').value;
      assert host == rest[..end + 1] && host[..|host| - 1] == rest[..end];
    }
  }

  predicate Permitted(s: string) {
    forall k :: 0 <= k < |s| ==> InAuthority(s[k])
  }

  lemma LowerPermitted(s: string)
    requires Permitted(s)
    ensures Permitted(Lower(s))
  {
  }

  lemma LowerBracketed(host: string)
    requires Bracketed(Lower(host)) && (']' in host ==> ']' !in host[..|host| - 1])
    ensures ']' !in Lower(host)[..|host| - 1]
  {
    var n := |host| - 1;
    assert host[n] == ']' && host[n] in host;
    forall k | 0 <= k < n ensures Lower(host)[..n][k] != ']' {
      assert host[..n][k] in host[..n];
    }
  }

  lemma RestCanonical(scheme: Scheme, rest: string, ip6: Ipv6)
    requires ParseRest(scheme, rest, ip6).Ok? && Permitted(rest)
    ensures Canonical(ParseRest(scheme, rest, ip6).value, ip6)
  {
    var o := ParseRest(scheme, rest, ip6).value;
    var host := SplitAuthority(rest, scheme).value.0;
    hide SplitAuthority, ValidHost, InAuthority, Lower, Bracketed;
    AuthorityParts(rest, scheme, host, o.port);
    LowerTwice(host);
    assert forall k :: 0 <= k < |host| ==> host[k] == rest[k];
    LowerPermitted(host);
    if Bracketed(o.host) {
      LowerBracketed(host);
    }
  }

  lemma RestPermitted(value: string, from: nat)
    requires from <= |value| && !(exists k :: 0 <= k < |value| && Refused(value[k])) && '*' !in value
    requires var rest := Tidied(value[from..]); '/' !in rest && '?' !in rest && '#' !in rest && '@' !in rest
    ensures Permitted(Tidied(value[from..]))
  {
    var rest := Tidied(value[from..]);
    hide Refused;
    forall k | 0 <= k < |rest| ensures InAuthority(rest[k]) {
      assert rest[k] == value[from + k] && rest[k] in rest && value[from + k] in value;
    }
  }

  lemma ParsedIsCanonical(value: string, ip6: Ipv6)
    requires Parse(value, ip6).Ok?
    ensures Canonical(Parse(value, ip6).value, ip6)
  {
    var k := FindSep(value).value;
    var rest := Tidied(value[k + 3..]);
    var scheme := SchemeOf(value[..k]).value;
    hide FindSep, SchemeOf, Canonical, Refused, Tidied, SplitAuthority, ValidHost;
    RestPermitted(value, k + 3);
    RestCanonical(scheme, rest, ip6);
  }

  // ------------------------------------------------------------- written and read

  lemma {:induction false} FindFirstSep(scheme: string, rest: string)
    requires ':' !in scheme
    ensures FindSep(scheme + Sep() + rest) == Some(|scheme|)
  {
    var s := scheme + Sep() + rest;
    assert |Sep()| == 3 && Sep()[0] == ':';
    hide Sep;
    if scheme == "" {
      assert s[..3] == Sep();
    } else {
      assert s[0] == scheme[0] && scheme[0] in scheme;
      assert s[..3][0] == scheme[0];
      assert s[1..] == scheme[1..] + Sep() + rest;
      FindFirstSep(scheme[1..], rest);
    }
  }

  lemma SchemeParts(scheme: Scheme)
    ensures ':' !in SchemeText(scheme) && SchemeOf(SchemeText(scheme)) == Some(scheme)
    ensures Harmless(SchemeText(scheme)) && Harmless(Sep())
  {
    assert Lower(SchemeText(scheme)) == SchemeText(scheme);
  }

  /** No refused character and no wildcard; slashes are allowed. */
  predicate Harmless(s: string) {
    forall k :: 0 <= k < |s| ==> !Refused(s[k]) && s[k] != '*'
  }

  lemma PortWritten(port: nat)
    requires port <= 65535
    ensures ParsePort(Decimal(port)) == Some(port) && Permitted(Decimal(port)) && ':' !in Decimal(port)
  {
    hide Decimal, Number, IsSpace, IsDigit, InAuthority;
    var s := Decimal(port);
    DecimalNumber(0, port);
    assert Zeros(0) + s == s;
    forall k | 0 <= k < |s| ensures InAuthority(s[k]) && s[k] != ':' && s[k] != '+' {
      DigitPlain(s[k]);
    }
  }

  lemma DigitPlain(c: char)
    requires IsDigit(c)
    ensures InAuthority(c) && c != ':' && c != '+'
  {
  }

  lemma {:induction false} FirstAt(s: string, c: char, k: nat)
    requires k < |s| && s[k] == c && c !in s[..k]
    ensures FirstOf(s, c) == Some(k)
  {
    if k > 0 {
      assert s[..k] == [s[0]] + s[1..][..k - 1];
      FirstAt(s[1..], c, k - 1);
    }
  }

  lemma {:induction false} LastAt(s: string, c: char, k: nat)
    requires k < |s| && s[k] == c && c !in s[k + 1..]
    ensures LastOf(s, c) == Some(k)
    decreases |s|
  {
    if k < |s| - 1 {
      var init := s[..|s| - 1];
      assert s[k + 1..] == init[k + 1..] + [s[|s| - 1]];
      LastAt(init, c, k);
    }
  }

  lemma PortTextCharacters(o: Origin)
    ensures ']' !in PortText(o) && forall k :: 0 <= k < |PortText(o)| ==> PortText(o)[k] == ':' || IsDigit(PortText(o)[k])
    ensures Permitted(PortText(o))
  {
    var d := Decimal(o.port);
    hide Decimal;
    assert forall k :: 0 <= k < |d| ==> IsDigit(d[k]);
  }

  /** A canonical host in brackets and its port are told apart again. */
  lemma LiteralReads(o: Origin, ip6: Ipv6)
    requires Canonical(o, ip6) && Bracketed(o.host)
    ensures SplitAuthority(o.host + PortText(o), o.scheme) == Some((o.host, o.port))
  {
    var rest := o.host + PortText(o);
    var n := |o.host|;
    PortWritten(o.port);
    hide ParsePort, Decimal, ValidHost, Lower, InAuthority;
    assert rest[..n] == o.host && rest[n..] == PortText(o) && rest[..n - 1] == o.host[..n - 1];
    FirstAt(rest, ']', n - 1);
    assert o.port != DefaultPort(o.scheme) ==> PortText(o)[1..] == Decimal(o.port);
  }

  lemma NameNoColon(o: Origin, ip6: Ipv6)
    requires Canonical(o, ip6) && !Bracketed(o.host)
    ensures ']' !in o.host + PortText(o) && ':' !in o.host
  {
    NamesArePlain(o.host, ip6);
    PortTextCharacters(o);
  }

  lemma NameReads(o: Origin, ip6: Ipv6)
    requires Canonical(o, ip6) && !Bracketed(o.host)
    ensures SplitAuthority(o.host + PortText(o), o.scheme) == Some((o.host, o.port))
  {
    hide Decimal, ValidHost, Lower, InAuthority, Bracketed, FirstOf, LastOf, ParsePort;
    PortWritten(o.port);
    NameNoColon(o, ip6);
    NamePortReads(o.host, o.port, o.scheme);
  }

  /** A name without a colon, then a colon and digits. */
  lemma PortFollows(host: string, digits: string, port: nat, scheme: Scheme)
    requires ':' !in digits && ']' !in host + [':'] + digits && ParsePort(digits) == Some(port)
    ensures SplitAuthority(host + [':'] + digits, scheme) == Some((host, port))
  {
    hide ParsePort, FirstOf, LastOf;
    var rest, n := host + [':'] + digits, |host|;
    assert FirstOf(rest, ']') == None;
    assert rest[n + 1..] == digits && rest[..n] == host;
    LastAt(rest, ':', n);
  }

  lemma NoPortFollows(host: string, scheme: Scheme)
    requires ':' !in host && ']' !in host
    ensures SplitAuthority(host, scheme) == Some((host, DefaultPort(scheme)))
  {
    hide ParsePort, FirstOf, LastOf;
    assert FirstOf(host, ']') == None && LastOf(host, ':') == None;
  }

  lemma NamePortReads(host: string, port: nat, scheme: Scheme)
    requires ':' !in host && ParsePort(Decimal(port)) == Some(port) && ':' !in Decimal(port)
    requires ']' !in host + PortText(Origin(scheme, host, port))
    ensures SplitAuthority(host + PortText(Origin(scheme, host, port)), scheme) == Some((host, port))
  {
    hide Decimal, ParsePort, FirstOf, LastOf, SplitAuthority;
    if port != DefaultPort(scheme) {
      assert host + ([':'] + Decimal(port)) == host + [':'] + Decimal(port);
      PortFollows(host, Decimal(port), port, scheme);
    } else {
      assert host + "" == host;
      NoPortFollows(host, scheme);
    }
  }

  lemma RestReads(o: Origin, ip6: Ipv6)
    requires Canonical(o, ip6)
    ensures ParseRest(o.scheme, o.host + PortText(o), ip6) == Ok(o) && Tidied(o.host + PortText(o)) == o.host + PortText(o)
    ensures Permitted(o.host + PortText(o))
  {
    var rest := o.host + PortText(o);
    PortTextCharacters(o);
    assert Permitted(o.host);
    assert Permitted(rest);
    if Bracketed(o.host) {
      LiteralReads(o, ip6);
    } else {
      NameReads(o, ip6);
    }
    assert o.host != "";
    hide SplitAuthority, ValidHost, PortText, Lower, Bracketed;
    assert forall k :: 0 <= k < |rest| ==> InAuthority(rest[k]);
    PermittedMisses(rest);
  }

  lemma PermittedMisses(s: string)
    requires Permitted(s)
    ensures '/' !in s && '?' !in s && '#' !in s && '@' !in s && '*' !in s
    ensures !exists k :: 0 <= k < |s| && Refused(s[k])
  {
  }

  /** Every canonical origin is read back from its own display. */
  lemma DisplayReads(o: Origin, ip6: Ipv6)
    requires Canonical(o, ip6)
    ensures Parse(Display(o), ip6) == Ok(o)
  {
    var rest := o.host + PortText(o);
    var head := SchemeText(o.scheme);
    var value := Display(o);
    RestReads(o, ip6);
    SchemeParts(o.scheme);
    FindFirstSep(head, rest);
    assert |Sep()| == 3;
    hide Canonical, SchemeText, Sep, ParseRest, PortText, FindSep, SchemeOf, Refused, Tidied, InAuthority;
    assert value[..|head|] == head && value[|head| + 3..] == rest;
    NoRefused(head, Sep(), rest);
    assert head + Sep() + rest == value;
  }

  lemma NoRefused(head: string, sep: string, rest: string)
    requires Harmless(head) && Harmless(sep) && Permitted(rest)
    ensures var value := head + sep + rest;
            '*' !in value && !exists k :: 0 <= k < |value| && Refused(value[k])
  {
    assert forall k :: 0 <= k < |rest| ==> InAuthority(rest[k]);
    hide Refused;
  }

  /** Parsing, writing and parsing again changes nothing. */
  lemma ParseDisplay(value: string, ip6: Ipv6)
    requires Parse(value, ip6).Ok?
    ensures Parse(Display(Parse(value, ip6).value), ip6) == Parse(value, ip6)
  {
    hide Parse, Display, Canonical;
    ParsedIsCanonical(value, ip6);
    DisplayReads(Parse(value, ip6).value, ip6);
  }

  /** Parsed origins are equal exactly when they are written the same. */
  lemma DisplayInjective(v: string, w: string, ip6: Ipv6)
    requires Parse(v, ip6).Ok? && Parse(w, ip6).Ok?
    ensures Display(Parse(v, ip6).value) == Display(Parse(w, ip6).value) <==> Parse(v, ip6) == Parse(w, ip6)
  {
    hide Parse, Display;
    ParseDisplay(v, ip6);
    ParseDisplay(w, ip6);
  }

  lemma {:induction false} UpToSuffix(s: string, suffix: string)
    requires forall k :: 0 <= k < |s| ==> !Ends(s[k])
    requires suffix == "" || Ends(suffix[0])
    ensures UpToEnd(s + suffix) == s
  {
    if s == "" {
      assert s + suffix == suffix;
    } else {
      assert (s + suffix)[1..] == s[1..] + suffix;
      UpToSuffix(s[1..], suffix);
    }
  }

  lemma UrlSplits(head: string, rest: string, suffix: string)
    requires ':' !in head && Permitted(rest) && (suffix == "" || Ends(suffix[0]))
    ensures var url := head + Sep() + rest + suffix;
            && FindSep(url) == Some(|head|) && |head| + 3 <= |url|
            && url[..|head|] == head && UpToEnd(url[|head| + 3..]) == rest
  {
    assert |Sep()| == 3;
    hide Sep, FindSep;
    FindFirstSep(head, rest + suffix);
    var url := head + Sep() + rest + suffix;
    assert url == head + Sep() + (rest + suffix);
    assert url[|head| + 3..] == rest + suffix;
    assert forall k :: 0 <= k < |rest| ==> InAuthority(rest[k]);
    UpToSuffix(rest, suffix);
  }

  /** The origin of any URL under a parsed origin is that origin. */
  lemma OfUrlFindsOrigin(value: string, suffix: string, ip6: Ipv6)
    requires Parse(value, ip6).Ok? && (suffix == "" || Ends(suffix[0]))
    ensures OfUrl(Display(Parse(value, ip6).value) + suffix, ip6) == Parse(value, ip6)
  {
    hide Parse, Canonical, SchemeText, Sep, ParseRest, PortText, FindSep, SchemeOf, Tidied, Permitted, Harmless;
    var o := Parse(value, ip6).value;
    ParsedIsCanonical(value, ip6);
    ParseDisplay(value, ip6);
    RestReads(o, ip6);
    SchemeParts(o.scheme);
    var head, rest := SchemeText(o.scheme), o.host + PortText(o);
    UrlSplits(head, rest, suffix);
    assert head + Sep() + rest == Display(o);
  }

  /** What parsing accepts is decided by what it reads: the canonical origins are exactly its results. */
  lemma CanonicalExactly(o: Origin, ip6: Ipv6)
    ensures Canonical(o, ip6) <==> exists value :: Parse(value, ip6) == Ok(o)
  {
    hide Parse, Display, Canonical;
    if Canonical(o, ip6) {
      DisplayReads(o, ip6);
    }
    forall value | Parse(value, ip6) == Ok(o) ensures Canonical(o, ip6) {
      ParsedIsCanonical(value, ip6);
    }
  }
}
