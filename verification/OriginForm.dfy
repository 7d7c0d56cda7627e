/**
 * Which texts are read as which origin, said without the parser: the spellings of an
 * origin, and that no other text is read as it.
 */
module OriginForm {
  import opened Wrappers
  import opened Texts
  import opened Origin

  /** The second text is the first with its capital letters made small. */
  predicate Lowered(s: string, low: string) {
    |s| == |low| &&
    forall k :: 0 <= k < |s| ==>
      low[k] as int == s[k] as int + (if 'A' <= s[k] <= 'Z' then 'a' as int - 'A' as int else 0)
  }

  /** No port, which is 80 or 443 by scheme; or a colon and up to five significant digits, perhaps after a plus sign. */
  ghost predicate PortSpelled(text: string, scheme: Scheme, port: nat) {
    || (text == "" && port == (match scheme case Http => 80 case Https => 443))
    || (port <= 65535 && exists digits :: (text == [':'] + digits || text == [':'] + (['+'] + digits)) && Numeral(digits, port))
  }

  /** Scheme and host in any case, the port, and perhaps one slash. */
  ghost predicate SpelledAs(value: string, o: Origin, head: string, host: string, port: string, slash: string) {
    && value == head + "://" + (host + port + slash)
    && Lowered(head, match o.scheme case Http => "http" case Https => "https")
    && Lowered(host, o.host) && PortSpelled(port, o.scheme, o.port) && (slash == "" || slash == "/")
  }

  lemma LoweredIsLower(s: string, low: string)
    ensures Lowered(s, low) <==> low == Lower(s)
  {
    if Lowered(s, low) {
      assert forall k :: 0 <= k < |s| ==> low[k] == LowerChar(s[k]);
    }
  }

  // ------------------------------------------------------------------- the port

  lemma DigitsRead(digits: string, port: nat)
    ensures digits != "" && Digital(digits) && Number(digits) == port <==> Numeral(digits, port)
  {
    hide Number;
    if Numeral(digits, port) {
      NumeralDigits(digits, port);
    } else if digits != "" && Digital(digits) {
      NumberReads(digits, port);
    }
  }

  /** A port text other than the empty one. */
  lemma PortRead(text: string, port: nat)
    ensures ParsePort(text) == Some(port) <==>
            port <= 65535 && exists digits :: (text == digits || text == ['+'] + digits) && Numeral(digits, port)
  {
    hide Number, Numeral;
    if ParsePort(text) == Some(port) {
      var digits := if text != "" && text[0] == '+' then text[1..] else text;
      assert text == digits || text == ['+'] + digits;
      DigitsRead(digits, port);
    }
    forall digits | port <= 65535 && (text == digits || text == ['+'] + digits) && Numeral(digits, port)
      ensures ParsePort(text) == Some(port) {
      DigitsRead(digits, port);
      assert IsDigit(digits[0]);
      if text != digits {
        assert text[1..] == digits;
      }
    }
  }

  lemma PortFromText(text: string, scheme: Scheme, port: nat)
    ensures PortSpelled([':'] + text, scheme, port) <==> ParsePort(text) == Some(port)
  {
    hide ParsePort, Numeral;
    PortRead(text, port);
    assert ([':'] + text)[1..] == text;
    forall digits ensures [':'] + text == [':'] + digits <==> text == digits {
      assert ([':'] + digits)[1..] == digits;
    }
    forall digits ensures [':'] + text == [':'] + (['+'] + digits) <==> text == ['+'] + digits {
      assert ([':'] + (['+'] + digits))[1..] == ['+'] + digits;
    }
  }

  /** Digits and a sign only, behind a colon. */
  lemma PortCharacters(text: string, port: nat)
    requires ParsePort(text) == Some(port)
    ensures Permitted(text) && ':' !in text && ']' !in text
  {
    hide Number;
    var digits := if text != "" && text[0] == '+' then text[1..] else text;
    forall k | 0 <= k < |text| ensures InAuthority(text[k]) && text[k] != ':' && text[k] != ']' {
      assert text[k] == '+' || IsDigit(text[k]) by {
        if text == digits {
        } else {
          assert text == ['+'] + digits;
        }
      }
    }
  }

  /** What follows the colon, if there is one. */
  lemma PortTail(text: string, scheme: Scheme, port: nat) returns (tail: string)
    requires PortSpelled(text, scheme, port) && text != ""
    ensures text == [':'] + tail && ParsePort(tail) == Some(port)
  {
    hide ParsePort, Numeral;
    tail := text[1..];
    assert text == [':'] + tail;
    PortFromText(tail, scheme, port);
  }

  // --------------------------------------------------------------- from the text

  lemma {:induction false} SepFound(s: string)
    requires FindSep(s).Some?
    ensures var k := FindSep(s).value; k + 3 <= |s| && s == s[..k] + "://" + s[k + 3..]
  {
    var k := FindSep(s).value;
    if s[..3] == Sep() {
      assert s == s[..3] + s[3..];
    } else {
      SepFound(s[1..]);
      assert s == [s[0]] + s[1..];
      assert s[..k] == [s[0]] + s[1..][..k - 1] && s[1..][k + 2..] == s[k + 3..];
    }
  }

  /** The host comes first, and what follows it is the port. */
  lemma AuthoritySpelled(rest: string, scheme: Scheme, host: string, port: nat) returns (text: string)
    requires SplitAuthority(rest, scheme) == Some((host, port))
    ensures rest == host + text && PortSpelled(text, scheme, port)
  {
    hide ParsePort, Numeral;
    match FirstOf(rest, ']') {
      case Some(end) =>
        text := rest[end + 1..];
        assert rest == rest[..end + 1] + text;
        if text != "" {
          assert text == [':'] + text[1..];
          PortFromText(text[1..], scheme, port);
        }
      case None =>
        match LastOf(rest, ':') {
          case Some(k) =>
            text := rest[k..];
            assert rest == rest[..k] + text && text == [':'] + rest[k + 1..];
            PortFromText(rest[k + 1..], scheme, port);
          case None =>
            text := "";
            assert rest == host + text;
        }
    }
  }

  /** What parsing goes through when it succeeds. */
  lemma ParseParts(value: string, o: Origin, ip6: Ipv6) returns (k: nat, rest: string, host: string)
    requires Parse(value, ip6) == Ok(o)
    ensures FindSep(value) == Some(k) && k + 3 <= |value| && SchemeOf(value[..k]) == Some(o.scheme)
    ensures rest == Tidied(value[k + 3..]) && SplitAuthority(rest, o.scheme) == Some((host, o.port)) && o.host == Lower(host)
  {
    hide FindSep, SplitAuthority, ValidHost, Refused, Lower, SchemeOf, Tidied;
    k := FindSep(value).value;
    rest := Tidied(value[k + 3..]);
    host := SplitAuthority(rest, o.scheme).value.0;
  }

  lemma Spelling(value: string, o: Origin, ip6: Ipv6) returns (head: string, host: string, port: string, slash: string)
    requires Parse(value, ip6) == Ok(o)
    ensures SpelledAs(value, o, head, host, port, slash)
  {
    hide Parse, FindSep, SplitAuthority, PortSpelled, Lowered, Lower, SchemeOf;
    var k, rest, h := ParseParts(value, o, ip6);
    SepFound(value);
    var whole := value[k + 3..];
    head, host := value[..k], h;
    slash := if rest == whole then "" else "/";
    assert whole == rest + slash;
    port := AuthoritySpelled(rest, o.scheme, host, o.port);
    SchemeLowered(head, o.scheme);
    LoweredIsLower(host, o.host);
  }

  lemma SchemeLowered(head: string, scheme: Scheme)
    ensures SchemeOf(head) == Some(scheme) <==> Lowered(head, match scheme case Http => "http" case Https => "https")
  {
    hide Lowered, Lower;
    assert |"http"| == 4 && |"https"| == 5;
    LoweredIsLower(head, "http");
    LoweredIsLower(head, "https");
  }

  // ----------------------------------------------------------------- to the text

  /** In any case, a canonical host keeps to the characters of an authority. */
  lemma HostCharacters(host: string, o: Origin, ip6: Ipv6)
    requires Canonical(o, ip6) && Lowered(host, o.host)
    ensures host != "" && Permitted(host) && (Bracketed(host) <==> Bracketed(o.host))
    ensures Bracketed(o.host) ==> ']' !in host[..|host| - 1]
    ensures !Bracketed(o.host) ==> ':' !in host && ']' !in host
  {
    if !Bracketed(o.host) {
      NamesArePlain(o.host, ip6);
    }
    hide ValidHost, Lower;
    forall k | 0 <= k < |host| ensures InAuthority(host[k]) {
      assert InAuthority(o.host[k]);
    }
    if Bracketed(o.host) {
      var n := |host| - 1;
      forall k | 0 <= k < n ensures host[..n][k] != ']' {
        assert o.host[..n][k] in o.host[..n];
      }
    }
  }

  /** The port text, taken apart: nothing for the default port, or a colon and the port. */
  predicate PortIs(text: string, tail: string, scheme: Scheme, port: nat) {
    if text == "" then port == DefaultPort(scheme) else text == [':'] + tail && ParsePort(tail) == Some(port)
  }

  lemma PortParts(text: string, scheme: Scheme, port: nat) returns (tail: string)
    requires PortSpelled(text, scheme, port)
    ensures PortIs(text, tail, scheme, port) && Permitted(text) && ']' !in text && ':' !in tail
  {
    tail := "";
    if text != "" {
      tail := PortTail(text, scheme, port);
      hide ParsePort, PortSpelled, IsSpace;
      PortCharacters(tail, port);
      Colon();
    }
  }

  lemma BracketsRead(host: string, text: string, tail: string, scheme: Scheme, port: nat)
    requires host != "" && host[|host| - 1] == ']' && ']' !in host[..|host| - 1] && PortIs(text, tail, scheme, port)
    ensures SplitAuthority(host + text, scheme) == Some((host, port))
  {
    hide ParsePort, FirstOf, LastOf;
    var rest, n := host + text, |host| - 1;
    assert rest[..n] == host[..n] && rest[n] == ']' && rest[..n + 1] == host && rest[n + 1..] == text;
    FirstAt(rest, ']', n);
    assert text != "" ==> text[0] == ':' && text[1..] == tail;
  }

  lemma PlainReads(host: string, text: string, tail: string, scheme: Scheme, port: nat)
    requires ':' !in host && ']' !in host && ']' !in text && ':' !in tail && PortIs(text, tail, scheme, port)
    ensures SplitAuthority(host + text, scheme) == Some((host, port))
  {
    hide ParsePort, SplitAuthority;
    if text != "" {
      assert host + text == host + [':'] + tail;
      PortFollows(host, tail, port, scheme);
    } else {
      assert host + text == host;
      NoPortFollows(host, scheme);
    }
  }

  lemma AuthorityReads(host: string, text: string, o: Origin, ip6: Ipv6)
    requires Canonical(o, ip6) && Lowered(host, o.host) && PortSpelled(text, o.scheme, o.port)
    ensures SplitAuthority(host + text, o.scheme) == Some((host, o.port)) && Permitted(host + text) && host != ""
  {
    hide Canonical, Lowered, PortSpelled, SplitAuthority, InAuthority, PortIs;
    HostCharacters(host, o, ip6);
    var tail := PortParts(text, o.scheme, o.port);
    if Bracketed(o.host) {
      BracketsRead(host, text, tail, o.scheme, o.port);
    } else {
      PlainReads(host, text, tail, o.scheme, o.port);
    }
  }

  lemma Colon()
    ensures InAuthority(':')
  {
  }

  /** A slash after an authority is dropped, and nothing else. */
  lemma Untidied(rest: string, slash: string)
    requires Permitted(rest) && (slash == "" || slash == "/")
    ensures Tidied(rest + slash) == rest
  {
    if slash == "" {
      assert rest + slash == rest;
      if rest != "" {
        assert InAuthority(rest[|rest| - 1]);
      }
    } else {
      assert (rest + slash)[..|rest|] == rest;
    }
  }

  lemma HeadHarmless(head: string, scheme: Scheme)
    requires SchemeOf(head) == Some(scheme)
    ensures Harmless(head) && ':' !in head
  {
    var low := SchemeText(scheme);
    assert Lower(head) == low;
    forall k | 0 <= k < |head| ensures 'A' <= head[k] <= 'Z' || 'a' <= head[k] <= 'z' {
      assert 'a' <= low[k] <= 'z';
      assert LowerChar(head[k]) == low[k];
    }
  }

  lemma SpelledReads(value: string, o: Origin, head: string, host: string, port: string, slash: string, ip6: Ipv6)
    requires Canonical(o, ip6) && SpelledAs(value, o, head, host, port, slash)
    ensures Parse(value, ip6) == Ok(o)
  {
    var rest := host + port;
    hide Canonical, PortSpelled, Lowered, SplitAuthority, FindSep, SchemeOf, Tidied, Refused, ParseRest, Permitted, Harmless;
    AuthorityReads(host, port, o, ip6);
    SchemeLowered(head, o.scheme);
    HeadHarmless(head, o.scheme);
    Untidied(rest, slash);
    assert Sep() == "://";
    FindFirstSep(head, rest + slash);
    assert value == head + Sep() + (rest + slash);
    assert value[..|head|] == head && value[|head| + 3..] == rest + slash;
    SchemeParts(o.scheme);
    ValueHarmless(head, rest, slash);
    RestParses(rest, host, o, ip6);
  }

  lemma ValueHarmless(head: string, rest: string, slash: string)
    requires Harmless(head) && Harmless(Sep()) && Permitted(rest) && (slash == "" || slash == "/")
    ensures var value := head + Sep() + (rest + slash);
            '*' !in value && !exists k :: 0 <= k < |value| && Refused(value[k])
  {
    hide Refused;
    NoRefused(head, Sep(), rest);
    var value, less := head + Sep() + (rest + slash), head + Sep() + rest;
    assert value == less + slash;
    assert !Refused('/') by { Slash(); }
    assert forall k :: 0 <= k < |value| ==> value[k] == '/' || (k < |less| && value[k] == less[k]);
  }

  lemma Slash()
    ensures !Refused('/')
  {
  }

  lemma RestParses(rest: string, host: string, o: Origin, ip6: Ipv6)
    requires Permitted(rest) && rest != "" && SplitAuthority(rest, o.scheme) == Some((host, o.port))
    requires Canonical(o, ip6) && Lowered(host, o.host)
    ensures ParseRest(o.scheme, rest, ip6) == Ok(o)
  {
    hide SplitAuthority, ValidHost;
    PermittedMisses(rest);
    LoweredIsLower(host, o.host);
  }

  /** The texts read as an origin are exactly the spellings of it, and origins are read in canonical form only. */
  lemma SpellingsExactly(value: string, o: Origin, ip6: Ipv6)
    ensures Parse(value, ip6) == Ok(o) <==>
            Canonical(o, ip6) && exists head, host, port, slash :: SpelledAs(value, o, head, host, port, slash)
  {
    hide Parse, Canonical, SpelledAs;
    if Parse(value, ip6) == Ok(o) {
      ParsedIsCanonical(value, ip6);
      var head, host, port, slash := Spelling(value, o, ip6);
    }
    forall head, host, port, slash | Canonical(o, ip6) && SpelledAs(value, o, head, host, port, slash)
      ensures Parse(value, ip6) == Ok(o) {
      SpelledReads(value, o, head, host, port, slash, ip6);
    }
  }

  // ------------------------------------------------------------------ valid names

  /** One to 63 letters, digits and dashes, with no dash at either end. */
  predicate Label(s: string) {
    && 1 <= |s| <= 63
    && (forall k :: 0 <= k < |s| ==> 'A' <= s[k] <= 'Z' || 'a' <= s[k] <= 'z' || '0' <= s[k] <= '9' ||
                                     (s[k] == '-' && 0 < k < |s| - 1))
  }

  /** Outside brackets, the valid hosts are the labels joined by dots, up to 253 characters. */
  lemma NamesExactly(host: string, ip6: Ipv6)
    requires !Bracketed(host)
    ensures ValidHost(host, ip6) <==>
            |host| <= 253 && exists labels: seq<string> ::
              |labels| >= 1 && Join(labels, '.') == host && forall k :: 0 <= k < |labels| ==> Label(labels[k])
  {
    forall s: string ensures Label(s) <==> ValidLabel(s) {
      LabelAgrees(s);
    }
    hide Label, ValidLabel;
    if ValidHost(host, ip6) {
      PiecesJoin(host, '.');
      assert Join(Pieces(host, '.'), '.') == host;
    }
    forall labels: seq<string> | |host| <= 253 && |labels| >= 1 && Join(labels, '.') == host &&
                                 forall k :: 0 <= k < |labels| ==> Label(labels[k])
      ensures ValidHost(host, ip6) {
      forall k | 0 <= k < |labels| ensures '.' !in labels[k] && labels[k] != "" {
        LabelPlain(labels[k]);
      }
      JoinPieces(labels, '.');
      JoinEnds(labels);
    }
  }

  lemma LabelAgrees(s: string)
    ensures Label(s) <==> ValidLabel(s)
  {
  }

  lemma LabelPlain(s: string)
    requires Label(s)
    ensures '.' !in s && s != ""
  {
  }

  lemma {:induction false} JoinEnds(labels: seq<string>)
    requires |labels| >= 1 && forall k :: 0 <= k < |labels| ==> '.' !in labels[k] && labels[k] != ""
    ensures var s := Join(labels, '.'); s != "" && s[0] != '.' && s[|s| - 1] != '.'
  {
    assert labels[0][0] in labels[0] && labels[0][|labels[0]| - 1] in labels[0];
    if |labels| > 1 {
      JoinEnds(labels[1..]);
    }
  }

  // ------------------------------------------------------------ what cannot get in

  /** White space and the characters that end a directive or a list are refused wherever they stand. */
  lemma BreakoutRefused(value: string, k: nat, ip6: Ipv6)
    requires k < |value|
    requires value[k] <= ' ' || 0x7F <= value[k] as int <= 0xA0 || value[k] in {';', '\'', '"', ',', '*'}
    ensures Parse(value, ip6).Err?
  {
    hide FindSep, ParseRest, SchemeOf;
    assert Refused(value[k]) || value[k] == '*';
    assert value[k] in value;
  }
}
