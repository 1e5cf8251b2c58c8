/**
 * Endpoint origins: the scheme and authority (section 3.2 of RFC 3986) of an http or https address,
 * with user information dropped and letters lowered, and the check that accepts exactly such text.
 */
module EndpointOrigin {
  import opened Wrappers
  import opened Text

  const MAX_ORIGIN_BYTES: nat := 256

  predicate IsDigit(c: char) { '0' <= c <= '9' }

  predicate IsAlphanumeric(c: char) { IsDigit(c) || 'a' <= c <= 'z' || 'A' <= c <= 'Z' }

  predicate IsHexDigit(c: char) { IsDigit(c) || 'a' <= c <= 'f' || 'A' <= c <= 'F' }

  function LowerChar(c: char): char {
    if 'A' <= c <= 'Z' then (c as int + 32) as char else c
  }

  function Lower(s: string): string {
    seq(|s|, i requires 0 <= i < |s| => LowerChar(s[i]))
  }

  /** The first index at which a character of the set occurs, or the length. */
  function FirstOf(s: string, chars: set<char>): (i: nat)
    ensures i <= |s|
  {
    if s == [] || s[0] in chars then 0 else 1 + FirstOf(s[1..], chars)
  }

  lemma {:induction false} FirstOfIsFirst(s: string, chars: set<char>)
    ensures var i := FirstOf(s, chars);
            (i < |s| ==> s[i] in chars) && forall k :: 0 <= k < i ==> s[k] !in chars
  {
    if s != [] && s[0] !in chars {
      FirstOfIsFirst(s[1..], chars);
    }
  }

  /** One past the last index at which the character occurs, or zero. */
  function AfterLast(s: string, c: char): (i: nat)
    ensures i <= |s|
  {
    if s == [] then 0 else if s[|s| - 1] == c then |s| else AfterLast(s[..|s| - 1], c)
  }

  lemma {:induction false} AfterLastIsLast(s: string, c: char)
    ensures var i := AfterLast(s, c);
            (i > 0 ==> s[i - 1] == c) && forall k :: i <= k < |s| ==> s[k] != c
  {
    if s != [] && s[|s| - 1] != c {
      AfterLastIsLast(s[..|s| - 1], c);
    }
  }

  // ---------------------------------------------------------------- the check

  predicate IsHostName(host: string) {
    host != [] && forall i :: 0 <= i < |host| ==> IsAlphanumeric(host[i]) || host[i] in {'-', '.', '_'}
  }

  function Number(digits: string): nat
    requires forall i :: 0 <= i < |digits| ==> IsDigit(digits[i])
  {
    if digits == [] then 0
    else
      var last := digits[|digits| - 1];
      assert IsDigit(last);
      Number(digits[..|digits| - 1]) * 10 + (last as int - '0' as int)
  }

  predicate IsPort(port: string) {
    && 1 <= |port| <= 5
    && (forall i :: 0 <= i < |port| ==> IsDigit(port[i]))
    && 0 < Number(port) < 0x1_0000
  }

  predicate IsOptionalPort(suffix: string) {
    suffix == [] || (suffix[0] == ':' && IsPort(suffix[1..]))
  }

  predicate IsIpv6Literal(address: string) {
    address != [] && forall i :: 0 <= i < |address| ==> IsHexDigit(address[i]) || address[i] in {':', '.'}
  }

  predicate IsBracketed(bracketed: string) {
    var close := FirstOf(bracketed, {']'});
    close < |bracketed| && IsIpv6Literal(bracketed[..close]) && IsOptionalPort(bracketed[close + 1..])
  }

  predicate IsValidAuthority(authority: string) {
    if authority != [] && authority[0] == '[' then IsBracketed(authority[1..])
    else
      var colon := AfterLast(authority, ':');
      if colon > 0 then IsHostName(authority[..colon - 1]) && IsPort(authority[colon..]) else IsHostName(authority)
  }

  function StripPrefix(s: string, prefix: string): Option<string> {
    if prefix <= s then Some(s[|prefix|..]) else None
  }

  predicate IsValidOrigin(value: string) {
    && Size(value) <= MAX_ORIGIN_BYTES
    && var secure, plain := StripPrefix(value, "https://"), StripPrefix(value, "http://");
       if secure.Some? then IsValidAuthority(secure.value) else plain.Some? && IsValidAuthority(plain.value)
  }

  // ---------------------------------------------------------------- the extraction

  /** The scheme and what follows it, when the address starts with this scheme in any case. */
  function AfterScheme(url: string, scheme: string): Option<string> {
    var n := |scheme|;
    if |url| >= n + 3 && Lower(url[..n]) == scheme && url[n..n + 3] == "://" then Some(url[n + 3..]) else None
  }

  function HttpScheme(url: string): Option<(string, string)> {
    var secure, plain := AfterScheme(url, "https"), AfterScheme(url, "http");
    if secure.Some? then Some(("https", secure.value))
    else if plain.Some? then Some(("http", plain.value))
    else None
  }

  function Compose(scheme: string, authority: string): string { scheme + "://" + authority }

  /** The host and port of what follows the scheme. */
  function HostOf(rest: string): string {
    var authority := rest[..FirstOf(rest, {'/', '?', '#', '\\'})];
    authority[AfterLast(authority, '@')..]
  }

  function Origin(url: string): Option<string> {
    var found := HttpScheme(url);
    if found.None? then None
    else
      var (scheme, rest) := found.value;
      var origin := Compose(scheme, Lower(HostOf(rest)));
      if IsValidOrigin(origin) then Some(origin) else None
  }

  // ---------------------------------------------------------------- what the check admits

  predicate IsAuthorityChar(c: char) {
    IsAlphanumeric(c) || c in {'-', '.', '_', ':', '[', ']'}
  }

  lemma BracketedCharacters(bracketed: string, i: nat)
    requires IsBracketed(bracketed) && i < |bracketed|
    ensures IsAuthorityChar(bracketed[i])
  {
    var close := FirstOf(bracketed, {']'});
    FirstOfIsFirst(bracketed, {']'});
    if i < close {
      assert bracketed[..close][i] == bracketed[i];
    } else if i > close {
      var suffix := bracketed[close + 1..];
      assert suffix[i - close - 1] == bracketed[i];
      if i > close + 1 {
        assert suffix[1..][i - close - 2] == bracketed[i];
      }
    }
  }

  /** A valid authority holds no user information, path, query or fragment. */
  lemma AuthorityCharacters(authority: string, i: nat)
    requires IsValidAuthority(authority) && i < |authority|
    ensures IsAuthorityChar(authority[i])
  {
    if authority[0] == '[' {
      if i > 0 {
        BracketedCharacters(authority[1..], i - 1);
      }
    } else {
      var colon := AfterLast(authority, ':');
      AfterLastIsLast(authority, ':');
      if colon > 0 {
        if i < colon - 1 {
          assert authority[..colon - 1][i] == authority[i];
        } else if i >= colon {
          assert authority[colon..][i - colon] == authority[i];
        }
      }
    }
  }

  lemma LowerIsIdempotent(s: string)
    ensures Lower(Lower(s)) == Lower(s)
  {
  }

  lemma AuthorityIsItsHost(authority: string)
    requires IsValidAuthority(authority)
    ensures HostOf(authority) == authority
  {
    forall i | 0 <= i < |authority| ensures IsAuthorityChar(authority[i]) {
      AuthorityCharacters(authority, i);
    }
    FirstOfIsFirst(authority, {'/', '?', '#', '\\'});
    AfterLastIsLast(authority, '@');
    assert FirstOf(authority, {'/', '?', '#', '\\'}) == |authority|;
    assert authority[..|authority|] == authority;
    assert AfterLast(authority, '@') == 0;
  }

  predicate IsDelimiter(c: char) { c in {'/', '?', '#', '\\'} }

  /** The authority ends at the first delimiter, and its host begins after the last '@'. */
  lemma HostLiesBetween(user: string, host: string, tail: string)
    requires forall i :: 0 <= i < |user| ==> !IsDelimiter(user[i])
    requires forall i :: 0 <= i < |host| ==> !IsDelimiter(host[i]) && host[i] != '@'
    requires tail != [] ==> IsDelimiter(tail[0])
    ensures HostOf(user + "@" + host + tail) == host
    ensures HostOf(host + tail) == host
  {
    var authority := user + "@" + host;
    AfterLastIsLast(authority, '@');
    AfterLastIsLast(host, '@');
    CutsAt(authority, tail);
    CutsAt(host, tail);
    assert authority + tail == user + "@" + host + tail;
    assert AfterLast(authority, '@') == |user| + 1 by {
      assert authority[|user|] == '@';
      forall k | |user| < k < |authority| ensures authority[k] != '@' {
        assert authority[k] == host[k - |user| - 1];
      }
    }
    assert authority[|user| + 1..] == host;
    assert AfterLast(host, '@') == 0;
  }

  lemma CutsAt(authority: string, tail: string)
    requires forall i :: 0 <= i < |authority| ==> !IsDelimiter(authority[i])
    requires tail != [] ==> IsDelimiter(tail[0])
    ensures (authority + tail)[..FirstOf(authority + tail, {'/', '?', '#', '\\'})] == authority
  {
    var rest := authority + tail;
    FirstOfIsFirst(rest, {'/', '?', '#', '\\'});
    forall i | 0 <= i < |authority| ensures !IsDelimiter(rest[i]) {
      assert rest[i] == authority[i];
    }
    if tail != [] {
      assert rest[|authority|] == tail[0];
    }
  }

  /** User information, path, query and fragment make no difference to the origin. */
  lemma OriginDropsUserAndPath(scheme: string, user: string, host: string, tail: string)
    requires scheme in {"https", "http"}
    requires forall i :: 0 <= i < |user| ==> !IsDelimiter(user[i])
    requires forall i :: 0 <= i < |host| ==> !IsDelimiter(host[i]) && host[i] != '@'
    requires tail != [] ==> IsDelimiter(tail[0])
    ensures Origin(Compose(scheme, user + "@" + host + tail)) == Origin(Compose(scheme, host))
    ensures Origin(Compose(scheme, host + tail)) == Origin(Compose(scheme, host))
  {
    HostLiesBetween(user, host, tail);
    HostLiesBetween(user, host, []);
    assert host + [] == host;
    SchemeOfOrigin(scheme, user + "@" + host + tail);
    SchemeOfOrigin(scheme, host + tail);
    SchemeOfOrigin(scheme, host);
  }

  lemma ComposedSecure(authority: string)
    ensures StripPrefix(Compose("https", authority), "https://") == Some(authority)
  {
    assert Compose("https", authority) == "https://" + authority;
  }

  lemma ComposedPlain(authority: string)
    ensures StripPrefix(Compose("http", authority), "http://") == Some(authority)
    ensures StripPrefix(Compose("http", authority), "https://").None?
  {
    assert Compose("http", authority) == "http://" + authority;
    assert Compose("http", authority)[4] == ':' && "https://"[4] == 's';
  }

  lemma ComposedIsValid(scheme: string, authority: string)
    requires scheme in {"https", "http"} && IsValidOrigin(Compose(scheme, authority))
    ensures IsValidAuthority(authority)
  {
    if scheme == "https" { ComposedSecure(authority); } else { ComposedPlain(authority); }
  }

  /** An extracted origin is one of the two schemes followed by a lowered, valid authority. */
  lemma OriginShape(url: string) returns (scheme: string, authority: string)
    requires Origin(url).Some?
    ensures scheme in {"https", "http"} && Origin(url).value == Compose(scheme, authority)
    ensures IsValidAuthority(authority) && Lower(authority) == authority
  {
    scheme := HttpScheme(url).value.0;
    authority := Lower(HostOf(HttpScheme(url).value.1));
    LowerIsIdempotent(HostOf(HttpScheme(url).value.1));
    ComposedIsValid(scheme, authority);
  }

  /** An origin is its own origin. */
  lemma OriginIsIdempotent(url: string)
    requires Origin(url).Some?
    ensures Origin(Origin(url).value) == Origin(url)
  {
    var scheme, authority := OriginShape(url);
    var origin := Origin(url).value;
    AuthorityIsItsHost(authority);
    SchemeOfOrigin(scheme, authority);
  }

  lemma SchemeOfOrigin(scheme: string, authority: string)
    requires scheme in {"https", "http"}
    ensures HttpScheme(Compose(scheme, authority)) == Some((scheme, authority))
  {
    var origin := Compose(scheme, authority);
    var n := |scheme|;
    assert origin[..n] == scheme && origin[n..n + 3] == "://" && origin[n + 3..] == authority;
    assert Lower(scheme) == scheme;
    if scheme == "http" && |origin| >= 8 {
      assert Lower(origin[..5])[4] == ':' && "https"[4] == 's';
    }
  }

  predicate IsOriginChar(c: char) { IsAuthorityChar(c) || c == '/' }

  lemma ComposedCharacters(scheme: string, authority: string, i: nat)
    requires (forall k :: 0 <= k < |scheme| ==> IsAlphanumeric(scheme[k])) && IsValidAuthority(authority)
    requires i < |Compose(scheme, authority)|
    ensures IsOriginChar(Compose(scheme, authority)[i])
  {
    var n := |scheme| + 3;
    if i < |scheme| {
      assert Compose(scheme, authority)[i] == scheme[i];
    } else if i < n {
      assert Compose(scheme, authority)[i] == "://"[i - |scheme|];
    } else {
      assert Compose(scheme, authority)[i] == authority[i - n];
      AuthorityCharacters(authority, i - n);
    }
  }

  lemma SchemeCharacters(scheme: string)
    requires scheme in {"https", "http"}
    ensures forall k :: 0 <= k < |scheme| ==> IsAlphanumeric(scheme[k])
  {
  }

  /** An origin consists of a scheme, "://" and authority characters only. */
  lemma OriginCharacters(url: string, i: nat)
    requires Origin(url).Some? && i < |Origin(url).value|
    ensures IsOriginChar(Origin(url).value[i])
  {
    var scheme, authority := OriginShape(url);
    SchemeCharacters(scheme);
    ComposedCharacters(scheme, authority, i);
  }

  lemma ComposedIsLower(scheme: string, authority: string)
    requires scheme in {"https", "http"}
    ensures Lower(Compose(scheme, authority)) == Compose(scheme, authority) <==> Lower(authority) == authority
  {
    var origin, n := Compose(scheme, authority), |scheme| + 3;
    assert Lower(scheme + "://") == scheme + "://";
    assert Lower(origin) == scheme + "://" + Lower(authority);
    assert origin[n..] == authority && Lower(origin)[n..] == Lower(authority);
  }

  lemma ValidOriginShape(value: string) returns (scheme: string, authority: string)
    requires IsValidOrigin(value)
    ensures scheme in {"https", "http"} && value == Compose(scheme, authority) && IsValidAuthority(authority)
  {
    if "https://" <= value {
      scheme, authority := "https", value[8..];
    } else {
      scheme, authority := "http", value[7..];
    }
  }

  /** The check and the extraction agree: what is extracted as itself is exactly the valid lower-case origin. */
  lemma OwnOriginIff(value: string)
    ensures Origin(value) == Some(value) <==> IsValidOrigin(value) && Lower(value) == value
  {
    if Origin(value) == Some(value) {
      var scheme, authority := OriginShape(value);
      ComposedIsLower(scheme, authority);
    }
    if IsValidOrigin(value) && Lower(value) == value {
      var scheme, authority := ValidOriginShape(value);
      ComposedIsLower(scheme, authority);
      SchemeOfOrigin(scheme, authority);
      AuthorityIsItsHost(authority);
    }
  }

  // ---------------------------------------------------------------- characters, ports and authorities, by what they are made of

  lemma DigitCharacters(c: char)
    ensures IsDigit(c) <==> c in "0123456789"
  {
  }

  lemma LetterCharacters(c: char)
    ensures IsAlphanumeric(c) && !IsDigit(c) <==> c in "abcdefghijklmnopqrstuvwxyz" || c in "ABCDEFGHIJKLMNOPQRSTUVWXYZ"
  {
  }

  lemma HexCharacters(c: char)
    ensures IsHexDigit(c) <==> c in "0123456789abcdefABCDEF"
  {
  }

  /** Lowering takes each capital letter to its small one and leaves every other character alone. */
  lemma LowerTable(k: nat)
    requires k < 26
    ensures LowerChar("ABCDEFGHIJKLMNOPQRSTUVWXYZ"[k]) == "abcdefghijklmnopqrstuvwxyz"[k]
  {
  }

  lemma OthersAreNotLowered(c: char)
    requires c !in "ABCDEFGHIJKLMNOPQRSTUVWXYZ"
    ensures LowerChar(c) == c
  {
  }

  function DigitValue(c: char): int { c as int - 48 }

  /** The number that up to five digits write, by the places they stand at. */
  function PlaceValue(digits: string): int
    requires |digits| <= 5
  {
    var n := |digits|;
    (if n >= 1 then DigitValue(digits[n - 1]) else 0) + (if n >= 2 then 10 * DigitValue(digits[n - 2]) else 0)
    + (if n >= 3 then 100 * DigitValue(digits[n - 3]) else 0) + (if n >= 4 then 1000 * DigitValue(digits[n - 4]) else 0)
    + (if n >= 5 then 10000 * DigitValue(digits[n - 5]) else 0)
  }

  lemma {:induction false} NumberIsPlaceValue(digits: string)
    requires |digits| <= 5 && forall i :: 0 <= i < |digits| ==> IsDigit(digits[i])
    ensures Number(digits) == PlaceValue(digits)
  {
    if digits != [] {
      NumberIsPlaceValue(digits[..|digits| - 1]);
    }
  }

  /** A port is one to five digits that write a number from 1 to 65535. */
  lemma PortIff(port: string)
    ensures IsPort(port) <==>
            && 1 <= |port| <= 5 && (forall i :: 0 <= i < |port| ==> port[i] in "0123456789")
            && 1 <= PlaceValue(port) <= 65535
  {
    if 1 <= |port| <= 5 && forall i :: 0 <= i < |port| ==> IsDigit(port[i]) {
      NumberIsPlaceValue(port);
    }
  }

  /** A name, or an address in brackets. */
  predicate IsHostForm(host: string) {
    || (host != [] && forall i :: 0 <= i < |host| ==> IsAlphanumeric(host[i]) || host[i] == '-' || host[i] == '.' || host[i] == '_')
    || (&& |host| >= 3 && host[0] == '[' && host[|host| - 1] == ']'
        && forall i :: 1 <= i < |host| - 1 ==> IsHexDigit(host[i]) || host[i] == ':' || host[i] == '.')
  }

  predicate IsPortForm(suffix: string) { suffix == [] || (suffix[0] == ':' && IsPort(suffix[1..])) }

  ghost predicate IsAuthorityForm(authority: string) {
    exists n: nat :: n <= |authority| && IsHostForm(authority[..n]) && IsPortForm(authority[n..])
  }

  /** A valid authority splits into a host and an optional port. */
  lemma ValidAuthoritySplits(authority: string)
    requires IsValidAuthority(authority)
    ensures IsAuthorityForm(authority)
  {
    if authority != [] && authority[0] == '[' {
      var close := FirstOf(authority[1..], {']'});
      FirstOfIsFirst(authority[1..], {']'});
      var n := close + 2;
      assert authority[..n][n - 1] == authority[1..][close];
      forall i | 1 <= i < n - 1 ensures IsHexDigit(authority[..n][i]) || authority[..n][i] in {':', '.'} {
        assert authority[..n][i] == authority[1..][..close][i - 1];
      }
      assert authority[n..] == authority[1..][close + 1..];
      assert IsHostForm(authority[..n]) && IsPortForm(authority[n..]);
    } else {
      var colon := AfterLast(authority, ':');
      AfterLastIsLast(authority, ':');
      if colon > 0 {
        assert authority[colon - 1..][1..] == authority[colon..];
        assert IsHostForm(authority[..colon - 1]) && IsPortForm(authority[colon - 1..]);
      } else {
        assert authority[..|authority|] == authority && authority[|authority|..] == [];
        assert IsHostForm(authority[..|authority|]) && IsPortForm(authority[|authority|..]);
      }
    }
  }

  /** The last colon of text whose end is a port, or none when neither part has one. */
  lemma NamedHostWithPort(authority: string, n: nat)
    requires n <= |authority| && IsHostName(authority[..n]) && IsPortForm(authority[n..])
    ensures IsValidAuthority(authority)
  {
    AfterLastIsLast(authority, ':');
    assert authority[0] == authority[..n][0];
    forall i | 0 <= i < n ensures authority[i] != ':' {
      assert authority[i] == authority[..n][i];
    }
    if n == |authority| {
      assert authority[..n] == authority;
      assert AfterLast(authority, ':') == 0;
    } else {
      forall i | n < i < |authority| ensures authority[i] != ':' {
        assert authority[i] == authority[n..][1..][i - n - 1];
      }
      assert authority[n] == authority[n..][0] == ':';
      assert AfterLast(authority, ':') == n + 1;
      assert authority[n..][1..] == authority[n + 1..];
    }
  }

  lemma BracketedHostWithPort(authority: string, n: nat)
    requires 3 <= n <= |authority| && authority[0] == '[' && authority[n - 1] == ']' && IsPortForm(authority[n..])
    requires forall i :: 1 <= i < n - 1 ==> IsHexDigit(authority[i]) || authority[i] == ':' || authority[i] == '.'
    ensures IsValidAuthority(authority)
  {
    var bracketed := authority[1..];
    FirstOfIsFirst(bracketed, {']'});
    forall i | 0 <= i < n - 2 ensures bracketed[i] != ']' {
      assert bracketed[i] == authority[i + 1];
    }
    assert bracketed[n - 2] == authority[n - 1];
    assert FirstOf(bracketed, {']'}) == n - 2;
    var address := bracketed[..n - 2];
    forall i | 0 <= i < |address| ensures IsHexDigit(address[i]) || address[i] in {':', '.'} {
      assert address[i] == authority[i + 1];
    }
    assert bracketed[n - 1..] == authority[n..];
  }

  /** The check accepts exactly a host, named or bracketed, with an optional port. */
  lemma AuthorityIff(authority: string)
    ensures IsValidAuthority(authority) <==> IsAuthorityForm(authority)
  {
    if IsValidAuthority(authority) {
      ValidAuthoritySplits(authority);
    }
    if n: nat :| n <= |authority| && IsHostForm(authority[..n]) && IsPortForm(authority[n..]) {
      if IsHostName(authority[..n]) {
        NamedHostWithPort(authority, n);
      } else {
        assert forall i :: 0 <= i < n ==> authority[i] == authority[..n][i];
        BracketedHostWithPort(authority, n);
      }
    }
  }

  // ---------------------------------------------------------------- the origin of an address, by its parts

  lemma AnyCaseScheme(scheme: string, rest: string)
    requires Lower(scheme) in {"https", "http"}
    ensures HttpScheme(scheme + "://" + rest) == Some((Lower(scheme), rest))
  {
    var url, n := scheme + "://" + rest, |scheme|;
    assert |Lower(scheme)| == n;
    assert url[..n] == scheme && url[n..n + 3] == "://" && url[n + 3..] == rest;
    if Lower(scheme) == "http" && |url| >= 8 {
      assert Lower(url[..5])[4] == LowerChar(url[4]) == ':' && "https"[4] == 's';
    }
  }

  /**
   * The origin of an address with user information and a path, query or fragment: its scheme and host in
   * lower case, exactly when that host is a valid authority and the origin is not too long.
   */
  lemma OriginOfParts(scheme: string, user: string, host: string, tail: string)
    requires Lower(scheme) in {"https", "http"}
    requires forall i :: 0 <= i < |user| ==> !IsDelimiter(user[i])
    requires forall i :: 0 <= i < |host| ==> !IsDelimiter(host[i]) && host[i] != '@'
    requires tail != [] ==> IsDelimiter(tail[0])
    ensures var origin := Lower(scheme) + "://" + Lower(host);
            var found := if IsAuthorityForm(Lower(host)) && Size(origin) <= 256 then Some(origin) else None;
            && Origin(scheme + "://" + (user + "@" + host + tail)) == found
            && Origin(scheme + "://" + (host + tail)) == found
  {
    HostLiesBetween(user, host, tail);
    AnyCaseScheme(scheme, user + "@" + host + tail);
    AnyCaseScheme(scheme, host + tail);
    AuthorityIff(Lower(host));
    if Lower(scheme) == "https" { ComposedSecure(Lower(host)); } else { ComposedPlain(Lower(host)); }
  }

  /** An address of any other scheme, or none, has no origin. */
  lemma OriginNeedsHttp(url: string) returns (scheme: string, rest: string)
    requires Origin(url).Some?
    ensures url == scheme + "://" + rest && Lower(scheme) in {"https", "http"}
  {
    var n := if AfterScheme(url, "https").Some? then 5 else 4;
    scheme, rest := url[..n], url[n + 3..];
    assert url == url[..n] + url[n..n + 3] + url[n + 3..];
  }
}
