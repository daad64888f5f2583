/** The cache key of a URI, a decoder for it, and exactly which URIs share a key. */
module CacheKey {

  /** The parts of a Poco::URI the proxy uses. */
  datatype Uri = Uri(host: string, port: nat, pathAndQuery: string)

  /** What remoteReq asks for: the session's host and port, and the request line's path. */
  datatype Target = Target(host: string, port: nat, path: string)

  predicate IsDigit(c: char) {
    '0' <= c <= '9'
  }

  predicate StartsPath(c: char) {
    c == '/' || c == '?'
  }

  /** std::to_string on a non-negative number. */
  function Decimal(n: nat): (s: string)
    ensures |s| > 0 && forall i :: 0 <= i < |s| ==> IsDigit(s[i])
  {
    if n < 10 then [(48 + n) as char] else Decimal(n / 10) + [(48 + n % 10) as char]
  }

  function Number(digits: string): nat
    requires forall i :: 0 <= i < |digits| ==> IsDigit(digits[i])
  {
    if digits == "" then 0
    else
      var last := digits[|digits| - 1];
      assert IsDigit(last);
      Number(digits[..|digits| - 1]) * 10 + (last as int - 48)
  }

  function MakeKey(uri: Uri): string {
    uri.host + Decimal(uri.port) + uri.pathAndQuery
  }

  function TargetOf(uri: Uri): Target {
    Target(uri.host, uri.port, if uri.pathAndQuery == "" then "/" else uri.pathAndQuery)
  }

  /** The request goes to the URI's own host and port, for its path, or for "/" if that is empty. */
  lemma TargetIs(host: string, port: nat, path: string)
    ensures TargetOf(Uri(host, port, "")) == Target(host, port, "/")
    ensures path != "" ==> TargetOf(Uri(host, port, path)) == Target(host, port, path)
  {
  }

  /** What an absolute request URI has. */
  predicate WellFormed(uri: Uri) {
    && uri.port < 65536
    && (forall i :: 0 <= i < |uri.host| ==> !StartsPath(uri.host[i]))
    && (uri.pathAndQuery != "" ==> StartsPath(uri.pathAndQuery[0]))
  }

  predicate EndsInDigit(host: string) {
    host != "" && IsDigit(host[|host| - 1])
  }

  /** The length of the part in front of the path. */
  function AuthorityLength(key: string): (n: nat)
    ensures n <= |key|
  {
    if key == "" || StartsPath(key[0]) then 0 else 1 + AuthorityLength(key[1..])
  }

  /** Where the run of digits at the end of `s` starts. */
  function DigitsStart(s: string): (n: nat)
    ensures n <= |s|
    ensures forall i :: n <= i < |s| ==> IsDigit(s[i])
    ensures n > 0 ==> !IsDigit(s[n - 1])
  {
    if EndsInDigit(s) then DigitsStart(s[..|s| - 1]) else |s|
  }

  function Decode(key: string): Uri {
    var n := AuthorityLength(key);
    var d := DigitsStart(key[..n]);
    Uri(key[..d], Number(key[..n][d..]), key[n..])
  }

  lemma {:induction false} NumberOfDecimal(n: nat)
    ensures Number(Decimal(n)) == n
  {
    if n >= 10 {
      NumberOfDecimal(n / 10);
      assert Decimal(n)[..|Decimal(n)| - 1] == Decimal(n / 10);
    }
  }

  lemma {:induction false} AuthorityOf(authority: string, path: string)
    requires forall i :: 0 <= i < |authority| ==> !StartsPath(authority[i])
    requires path != "" ==> StartsPath(path[0])
    ensures AuthorityLength(authority + path) == |authority|
  {
    if authority == "" {
      assert authority + path == path;
    } else {
      AuthorityOf(authority[1..], path);
      assert (authority + path)[1..] == authority[1..] + path;
    }
  }

  lemma DigitsStartIn(host: string, digits: string)
    requires !EndsInDigit(host) && forall i :: 0 <= i < |digits| ==> IsDigit(digits[i])
    ensures DigitsStart(host + digits) == |host|
  {
    var s := host + digits;
    assert forall i :: |host| <= i < |s| ==> s[i] == digits[i - |host|];
    assert host != "" ==> s[|host| - 1] == host[|host| - 1];
  }

  lemma KeyParts(uri: Uri)
    requires WellFormed(uri)
    ensures var n := AuthorityLength(MakeKey(uri));
            MakeKey(uri)[..n] == uri.host + Decimal(uri.port) && MakeKey(uri)[n..] == uri.pathAndQuery
  {
    AuthorityOf(uri.host + Decimal(uri.port), uri.pathAndQuery);
  }

  /** The decoder inverts makeKey on every URI whose host does not end in a digit. */
  lemma DecodeMakeKey(uri: Uri)
    requires WellFormed(uri) && !EndsInDigit(uri.host)
    ensures Decode(MakeKey(uri)) == uri
  {
    KeyParts(uri);
    DigitsStartIn(uri.host, Decimal(uri.port));
    NumberOfDecimal(uri.port);
    var key := MakeKey(uri);
    var authority := key[..AuthorityLength(key)];
    assert authority[|uri.host|..] == Decimal(uri.port);
    assert key[..|uri.host|] == authority[..|uri.host|] == uri.host;
  }

  /** Such URIs never share a cache entry, and the key fixes the request that fetches it. */
  lemma KeyIsInjective(a: Uri, b: Uri)
    requires WellFormed(a) && WellFormed(b) && !EndsInDigit(a.host) && !EndsInDigit(b.host)
    requires MakeKey(a) == MakeKey(b)
    ensures a == b && TargetOf(a) == TargetOf(b)
  {
    DecodeMakeKey(a);
    DecodeMakeKey(b);
  }

  /** The only way two URIs can share a key: digits at the end of one host are the first digits of the other's
      port, as nothing separates the two. */
  ghost predicate Shifts(a: Uri, b: Uri) {
    && |a.host| <= |b.host| && a.host == b.host[..|a.host|]
    && Decimal(a.port) == b.host[|a.host|..] + Decimal(b.port)
  }

  lemma ShiftedKeys(a: Uri, b: Uri)
    requires WellFormed(a) && WellFormed(b) && MakeKey(a) == MakeKey(b) && |a.host| <= |b.host|
    ensures a.pathAndQuery == b.pathAndQuery && Shifts(a, b)
  {
    KeyParts(a);
    KeyParts(b);
    var s, t := a.host + Decimal(a.port), b.host + Decimal(b.port);
    assert s == t;
    assert s[..|a.host|] == a.host && t[..|a.host|] == b.host[..|a.host|];
    assert s[|a.host|..] == Decimal(a.port) && t[|a.host|..] == b.host[|a.host|..] + Decimal(b.port);
  }

  lemma ShiftsShareKey(a: Uri, b: Uri)
    requires a.pathAndQuery == b.pathAndQuery && Shifts(a, b)
    ensures MakeKey(a) == MakeKey(b)
  {
    assert b.host == a.host + b.host[|a.host|..];
    assert a.host + (b.host[|a.host|..] + Decimal(b.port)) == b.host + Decimal(b.port);
  }

  /** Exactly when two URIs share a key, for all URIs. */
  lemma SharedKeyIff(a: Uri, b: Uri)
    requires WellFormed(a) && WellFormed(b)
    ensures MakeKey(a) == MakeKey(b) <==> a.pathAndQuery == b.pathAndQuery && (Shifts(a, b) || Shifts(b, a))
  {
    if MakeKey(a) == MakeKey(b) {
      if |a.host| <= |b.host| { ShiftedKeys(a, b); } else { ShiftedKeys(b, a); }
    } else if a.pathAndQuery == b.pathAndQuery {
      if Shifts(a, b) { ShiftsShareKey(a, b); }
      if Shifts(b, a) { ShiftsShareKey(b, a); }
    }
  }

  lemma TwoPorts()
    ensures Decimal(80) == "80" && Decimal(8080) == "8080"
  {
    assert Decimal(8080) == Decimal(80) + "8" + "0" by {
      assert Decimal(808) == Decimal(80) + "8";
    }
  }

  /** The condition on hosts is needed: two different servers share one entry. */
  lemma AddressesCollide()
    ensures var a, b := Uri("10.0.0.1", 8080, "/"), Uri("10.0.0.180", 80, "/");
            WellFormed(a) && WellFormed(b) && TargetOf(a) != TargetOf(b) && MakeKey(a) == MakeKey(b)
  {
    var a, b := Uri("10.0.0.1", 8080, "/"), Uri("10.0.0.180", 80, "/");
    TwoPorts();
    assert b.host == a.host + "80";
    ShiftsShareKey(a, b);
  }
}
