/** Cache entries: their freshness lifetime, expiry instant and validation.

    Instants and spans are in microseconds, as in Poco. */
module Freshness {
  import opened Wrappers
  import Http
  import CacheControl

  /** The library calls on text: the Date header, strings in the Expires format, and stod narrowed to long.
      None is a failure; the last one throws, tryParse reports it. */
  datatype Lib = Lib(getDate: string -> Option<int>, tryParse: string -> Option<int>, stod: string -> Option<int>)

  const SECOND := 1_000_000

  // ---- Timespan::seconds, with C++ division ----

  function TruncDiv(a: int, b: nat): int
    requires b > 0
  {
    if a >= 0 then a / b else -((-a) / b)
  }

  function TruncMod(a: int, b: nat): int
    requires b > 0
  {
    a - b * TruncDiv(a, b)
  }

  /** The seconds-of-minute component of a span. */
  function Seconds(span: int): int {
    TruncMod(TruncDiv(span, SECOND), 60)
  }

  /** Timespan(-1, -1): one second and one microsecond, negative. */
  const NO_LIFETIME := -SECOND - 1

  /** The test the code uses for "no lifetime", for all spans: it also holds of a negative span of 61 to 62
      seconds, of 121 to 122, and so on, and of no span from zero up. */
  lemma SentinelIff(span: int)
    ensures Seconds(span) == -1 <==> span < 0 && ((-span) / SECOND) % 60 == 1
    ensures Seconds(NO_LIFETIME) == -1
  {
    var q := TruncDiv(span, SECOND);
    if q < 0 {
      assert q - 60 * -((-q) / 60) == -((-q) % 60);
    }
  }

  // ---- Entries ----

  datatype Entry = Entry(
    body: string,
    responseTime: int,
    expire: int,
    lifetime: int,
    noCache: bool,
    mustRevalidate: bool,
    response: Http.Response)

  function DateOf(lib: Lib, hs: seq<Http.Header>): Option<int> {
    match Http.First(hs, "date")
    case None => None
    case Some(text) => lib.getDate(text)
  }

  function TextOf(hs: seq<Http.Header>, name: string): string {
    match Http.First(hs, name)
    case None => ""
    case Some(text) => text
  }

  /** getMaxAge, in seconds; -1 when the directive is absent. */
  function MaxAge(lib: Lib, hs: seq<Http.Header>): Outcome<int> {
    var directives := CacheControl.Directives(hs);
    if "max-age" in directives then
      match lib.stod(directives["max-age"])
      case None => Threw(StdException)
      case Some(seconds) => Ok(seconds)
    else Ok(-1)
  }

  /** The freshness lifetime the constructor settles on. */
  function Lifetime(lib: Lib, hs: seq<Http.Header>, date: int): Outcome<int> {
    var expires := TextOf(hs, "expires");
    if Http.First(hs, CacheControl.CACHE_CONTROL).Some? then
      match MaxAge(lib, hs)
      case Threw(e) => Threw(e)
      case Ok(seconds) => Ok(seconds * SECOND)
    else if expires != "" then
      match lib.tryParse(expires)
      case Some(expiry) => Ok(expiry - date)
      case None => Ok(NO_LIFETIME)
    else if TextOf(hs, "last-modified") != "" then
      match lib.tryParse(expires)
      case Some(modified) => Ok(TruncDiv(date - modified, 10))
      case None => Ok(NO_LIFETIME)
    else Ok(NO_LIFETIME)
  }

  predicate NoCache(hs: seq<Http.Header>) {
    "no-cache" in CacheControl.Directives(hs)
  }

  predicate MustRevalidate(hs: seq<Http.Header>) {
    "must-revalidate" in CacheControl.Directives(hs)
  }

  /** The entry built from a response at instant `now`. */
  function Build(lib: Lib, response: Http.Response, body: string, now: int): Outcome<Entry> {
    var hs := response.headers;
    match DateOf(lib, hs)
    case None => Threw(PocoException)
    case Some(date) =>
      match Lifetime(lib, hs, date)
      case Threw(e) => Threw(e)
      case Ok(lifetime) =>
        var expire := if MustRevalidate(hs) || Seconds(lifetime) == -1 || NoCache(hs) then now else date + lifetime;
        Ok(Entry(body, date, expire, lifetime, NoCache(hs), MustRevalidate(hs), Http.CopyOnto(response, Http.EMPTY)))
  }

  /** LRUCache::add stores a copy of its argument. */
  function Copied(e: Entry): Entry {
    e.(response := Http.CopyOnto(e.response, Http.EMPTY))
  }

  predicate IsValid(e: Entry, now: int) {
    !e.noCache && Seconds(e.lifetime) != -1 && now < e.expire
  }

  function Validated(e: Entry): Entry {
    if Seconds(e.lifetime) != -1 then e.(expire := e.expire + e.lifetime) else e
  }

  class CacheResponse {
    var responseData: string
    var responseTimestamp: int
    var expireTimestamp: int
    var maxFreshness: int
    var isNoCache: bool
    var mustRevalidate: bool
    const responseObj: Http.HttpMessage

    ghost function State(): Entry
      reads this, responseObj
    {
      Entry(responseData, responseTimestamp, expireTimestamp, maxFreshness, isNoCache, mustRevalidate,
            responseObj.State())
    }

    /** The members as they are before the constructor bodies: a default Poco timestamp is the current time. */
    constructor Blank(data: string, now: int)
      ensures fresh(responseObj)
      ensures State() == Entry(data, now, now, 0, false, false, Http.EMPTY)
    {
      responseData, responseTimestamp, expireTimestamp := data, now, now;
      maxFreshness, isNoCache, mustRevalidate := 0, false, false;
      responseObj := new Http.HttpMessage();
    }

    /** The part of the constructor that settles the lifetime. */
    method ReadDirectives(lib: Lib, hs: seq<Http.Header>) returns (thrown: Option<Exception>)
      modifies this`maxFreshness, this`isNoCache, this`mustRevalidate
      ensures Lifetime(lib, hs, responseTimestamp) == if thrown.Some? then Threw(thrown.value) else Ok(maxFreshness)
      ensures thrown.None? ==> isNoCache == NoCache(hs) && mustRevalidate == MustRevalidate(hs)
    {
      thrown, maxFreshness, isNoCache, mustRevalidate := None, NO_LIFETIME, false, false;
      SentinelIff(maxFreshness);

      if Http.First(hs, CacheControl.CACHE_CONTROL).Some? {
        var directives := CacheControl.GetCacheControlHeaders(hs);
        var maxAge := MaxAge(lib, hs);
        if maxAge.Threw? {
          return Some(maxAge.exception);
        }
        maxFreshness := maxAge.value * SECOND;
        isNoCache := "no-cache" in directives;
        mustRevalidate := "must-revalidate" in directives;
      } else if Seconds(maxFreshness) == -1 {
        var expires, modified := TextOf(hs, "expires"), TextOf(hs, "last-modified");
        if expires != "" {
          var expiry := lib.tryParse(expires);
          if expiry.Some? {
            maxFreshness := expiry.value - responseTimestamp;
          }
        } else if modified != "" {
          var parsed := lib.tryParse(expires);
          if parsed.Some? {
            maxFreshness := TruncDiv(responseTimestamp - parsed.value, 10);
          }
        }
      }
    }

    static method FromResponse(lib: Lib, response: Http.HttpMessage, data: string, now: int)
      returns (r: Outcome<CacheResponse>)
      ensures r.Ok? ==> fresh(r.value) && fresh(r.value.responseObj)
      ensures Build(lib, response.State(), data, now) == if r.Ok? then Ok(r.value.State()) else Threw(r.exception)
    {
      var hs := response.headers;
      var date := DateOf(lib, hs);
      if date.None? {
        return Threw(PocoException);
      }
      var self := new CacheResponse.Blank(data, now);
      self.responseTimestamp := date.value;
      var thrown := self.ReadDirectives(lib, hs);
      if thrown.Some? {
        return Threw(thrown.value);
      }
      if self.mustRevalidate {
      } else if Seconds(self.maxFreshness) == -1 || self.isNoCache {
      } else {
        self.expireTimestamp := self.responseTimestamp + self.maxFreshness;
      }
      Http.CopyResponseObj(response, self.responseObj);
      r := Ok(self);
    }

    constructor Copy(rhs: CacheResponse)
      ensures fresh(responseObj)
      ensures State() == Copied(rhs.State())
    {
      responseData, isNoCache, mustRevalidate := rhs.responseData, rhs.isNoCache, rhs.mustRevalidate;
      expireTimestamp, responseTimestamp, maxFreshness := rhs.expireTimestamp, rhs.responseTimestamp, rhs.maxFreshness;
      responseObj := new Http.HttpMessage();
      new;
      Http.CopyResponseObj(rhs.responseObj, responseObj);
    }

    method IsValidResponse(now: int) returns (valid: bool)
      ensures valid == IsValid(State(), now)
    {
      if isNoCache {
        return false;
      }
      if Seconds(maxFreshness) != -1 {
        return now < expireTimestamp;
      }
      return false;
    }

    method Revalidated()
      modifies this`expireTimestamp
      ensures State() == Validated(old(State()))
    {
      if Seconds(maxFreshness) != -1 {
        expireTimestamp := expireTimestamp + maxFreshness;
      }
    }

    method GetResponse(to: Http.HttpMessage)
      requires to != responseObj
      modifies to
      ensures to.State() == Http.CopyOnto(responseObj.State(), old(to.State()))
    {
      Http.CopyResponseObj(responseObj, to);
    }
  }

  // ---- What the arithmetic means ----

  function ValidatedTimes(e: Entry, n: nat): Entry {
    if n == 0 then e else Validated(ValidatedTimes(e, n - 1))
  }

  /** Each 304 moves the expiry by exactly one lifetime, wherever the clock stands, and changes nothing else. */
  lemma {:induction false} ExpiryAfter(e: Entry, n: nat)
    ensures ValidatedTimes(e, n)
            == if Seconds(e.lifetime) == -1 then e else e.(expire := e.expire + n * e.lifetime)
  {
    if n > 0 {
      ExpiryAfter(e, n - 1);
      assert n * e.lifetime == (n - 1) * e.lifetime + e.lifetime;
    }
  }

  /** The Date the first "date" line has, if it is readable. */
  function DateRead(lib: Lib, hs: seq<Http.Header>): Option<int> {
    match Http.First(hs, "date")
    case None => None
    case Some(text) => lib.getDate(text)
  }

  /** What the first "cache-control" line says max-age is. */
  function MaxAgeText(hs: seq<Http.Header>): Option<string> {
    match Http.First(hs, "cache-control")
    case None => None
    case Some(text) =>
      var directives := CacheControl.Parse(text);
      if "max-age" in directives then Some(directives["max-age"]) else None
  }

  lemma MaxAgeIsSaid(hs: seq<Http.Header>)
    ensures MaxAgeText(hs).Some? <==> CacheControl.Says(hs, "max-age")
  {
    CacheControl.SaysIff(hs, "max-age");
  }

  /** Exactly when the constructor throws, and which exception; and what it keeps of the response otherwise. */
  lemma BuildFailsIff(lib: Lib, response: Http.Response, body: string, built: int)
    ensures var hs, made := response.headers, Build(lib, response, body, built);
            && (made == Threw(PocoException) <==> DateRead(lib, hs).None?)
            && (made == Threw(StdException) <==>
                  DateRead(lib, hs).Some? && MaxAgeText(hs).Some? && lib.stod(MaxAgeText(hs).value).None?)
            && (made.Ok? ==>
                  && Some(made.value.responseTime) == DateRead(lib, hs) && made.value.body == body
                  && made.value.response == Http.CopyOnto(response, Http.EMPTY))
  {
  }

  /** The lifetime of every entry. A Cache-Control line settles it alone: by its max-age, or as none. Without one it is
      the Expires less the Date, if the Expires can be read; an Expires that cannot, or a Last-Modified, gives none. */
  lemma LifetimeIs(lib: Lib, response: Http.Response, body: string, built: int)
    requires Build(lib, response, body, built).Ok?
    ensures var e, hs := Build(lib, response, body, built).value, response.headers;
            match Http.First(hs, "cache-control")
            case Some(_) =>
              (match MaxAgeText(hs)
               case Some(digits) => lib.stod(digits).Some? && e.lifetime == lib.stod(digits).value * 1_000_000
               case None => e.lifetime == -1_000_000)
            case None =>
              match Http.First(hs, "expires")
              case Some(text) =>
                if text == "" then lib.tryParse("") == None ==> e.lifetime == -1_000_001
                else
                  e.lifetime == (match lib.tryParse(text)
                                 case Some(expiry) => expiry - e.responseTime
                                 case None => -1_000_001)
              case None => lib.tryParse("") == None ==> e.lifetime == -1_000_001
  {
  }

  /** Exactly when an entry is a hit after `n` revalidations, for every response: its first Cache-Control line does not
      say no-cache, it has a lifetime other than the sentinel, and the clock is before the instant its expiry counts
      from and that many lifetimes. An entry that says must-revalidate counts from when it was built and starts out
      stale. */
  lemma HitIff(lib: Lib, response: Http.Response, body: string, built: int, n: nat, now: int)
    requires Build(lib, response, body, built).Ok?
    ensures var e, hs := Build(lib, response, body, built).value, response.headers;
            IsValid(ValidatedTimes(Copied(e), n), now) <==>
              && !CacheControl.Says(hs, "no-cache") && Seconds(e.lifetime) != -1
              && now < if CacheControl.Says(hs, "must-revalidate") then built + n * e.lifetime
                       else e.responseTime + (n + 1) * e.lifetime
  {
    var e := Build(lib, response, body, built).value;
    CacheControl.SaysIff(response.headers, "no-cache");
    CacheControl.SaysIff(response.headers, "must-revalidate");
    ExpiryAfter(Copied(e), n);
    NegativeMultiples(n, e.lifetime);
  }

  /** An Expires that cannot be read never gives a hit, whatever the Date and the clock. */
  lemma UnreadableExpiresNeverHits(lib: Lib, response: Http.Response, body: string, built: int, n: nat, now: int)
    requires Build(lib, response, body, built).Ok?
    requires Http.First(response.headers, "cache-control").None?
    requires match Http.First(response.headers, "expires")
             case None => false
             case Some(text) => text != "" && lib.tryParse(text).None?
    ensures !IsValid(ValidatedTimes(Copied(Build(lib, response, body, built).value), n), now)
  {
    NoneIsNoHit(lib, response, body, built, n, now);
  }

  /** When a stored entry that was never revalidated is a hit: exactly when it is neither no-cache nor
      must-revalidate, has a lifetime, and is younger, counted from its Date, than that lifetime. The Date may lie in
      the future, which makes the entry's age negative. */
  lemma FirstHitIff(lib: Lib, response: Http.Response, body: string, built: int, now: int)
    requires Build(lib, response, body, built).Ok? && built <= now
    ensures var e, hs := Build(lib, response, body, built).value, response.headers;
            IsValid(Copied(e), now) <==>
              && !NoCache(hs) && !MustRevalidate(hs) && Seconds(e.lifetime) != -1
              && now - e.responseTime < e.lifetime
  {
  }

  /** The two explicit lifetimes, for entries that are neither no-cache nor must-revalidate: max-age counts from
      Date, and Expires is the expiry itself. */
  lemma ExplicitExpiry(lib: Lib, response: Http.Response, body: string, built: int)
    requires Build(lib, response, body, built).Ok?
    requires !NoCache(response.headers) && !MustRevalidate(response.headers)
    ensures var e, directives := Build(lib, response, body, built).value, CacheControl.Directives(response.headers);
            "max-age" in directives && lib.stod(directives["max-age"]).value >= 0 ==>
              e.expire == e.responseTime + lib.stod(directives["max-age"]).value * SECOND
    ensures var e, expires := Build(lib, response, body, built).value, TextOf(response.headers, "expires");
            Http.First(response.headers, CacheControl.CACHE_CONTROL).None? && expires != "" ==>
              match lib.tryParse(expires) case None => true case Some(t) => t >= e.responseTime ==> e.expire == t
  {
    SentinelIff(Build(lib, response, body, built).value.lifetime);
  }

  lemma NegativeMultiples(n: nat, f: int)
    ensures f < 0 ==> n * f <= 0
    ensures (n + 1) * f == n * f + f
  {
  }

  /** When an entry with a negative lifetime is a hit after `n` revalidations: only while its Date lies far enough in
      the future. */
  lemma NegativeLifetimeHitsIff(lib: Lib, response: Http.Response, body: string, built: int, n: nat, now: int)
    requires Build(lib, response, body, built).Ok? && built <= now
    requires Build(lib, response, body, built).value.lifetime < 0
    ensures var e, hs := Build(lib, response, body, built).value, response.headers;
            IsValid(ValidatedTimes(Copied(e), n), now) <==>
              && !NoCache(hs) && !MustRevalidate(hs) && Seconds(e.lifetime) != -1
              && now < e.responseTime + (n + 1) * e.lifetime
  {
    var e := Copied(Build(lib, response, body, built).value);
    ExpiryAfter(e, n);
    NegativeMultiples(n, e.lifetime);
  }

  /** So it never is one once its Date has passed. */
  lemma NoLifetimeNeverHits(lib: Lib, response: Http.Response, body: string, built: int, n: nat, now: int)
    requires Build(lib, response, body, built).Ok? && built <= now
    requires var e := Build(lib, response, body, built).value; e.lifetime < 0 && e.responseTime <= now
    ensures !IsValid(ValidatedTimes(Copied(Build(lib, response, body, built).value), n), now)
  {
    NegativeLifetimeHitsIff(lib, response, body, built, n, now);
    NegativeMultiples(n + 1, Build(lib, response, body, built).value.lifetime);
  }

  /** But before, it can be: Date is 100 seconds ahead and Expires 90, and 50 seconds later the entry is a hit. */
  lemma NegativeLifetimeCanHit(body: string)
    ensures var lib := Lib(_ => Some(100 * SECOND), _ => Some(90 * SECOND), _ => None);
            var response := Http.Response(Http.HTTP_OK, [Http.Header("date", "D"), Http.Header("expires", "E")]);
            var built := Build(lib, response, body, 0);
            built.Ok? && built.value.lifetime == -10 * SECOND && IsValid(Copied(built.value), 50 * SECOND)
  {
    var hs := [Http.Header("date", "D"), Http.Header("expires", "E")];
    var lib := Lib(_ => Some(100 * SECOND), _ => Some(90 * SECOND), _ => None);
    assert hs[1..] == [Http.Header("expires", "E")] && hs[1..][1..] == [];
    assert Http.Values(hs, "date") == ["D"] + Http.Values(hs[1..], "date");
    assert Http.Values(hs, "expires") == [] + Http.Values(hs[1..], "expires") == ["E"] + [];
    assert Http.Values(hs, CacheControl.CACHE_CONTROL) == [];
    assert Lifetime(lib, hs, 100 * SECOND) == Ok(-10 * SECOND);
    assert Seconds(-10 * SECOND) == -10;
  }

  /** Neither lifetime that stands for none ever gives a hit, wherever the Date and the clock are. */
  lemma NoneIsNoHit(lib: Lib, response: Http.Response, body: string, built: int, n: nat, now: int)
    requires Build(lib, response, body, built).Ok?
    requires Build(lib, response, body, built).value.lifetime in {-SECOND, NO_LIFETIME}
    ensures !IsValid(ValidatedTimes(Copied(Build(lib, response, body, built).value), n), now)
  {
    var e := Copied(Build(lib, response, body, built).value);
    SentinelIff(e.lifetime);
    ExpiryAfter(e, n);
  }

  /** A Cache-Control header without max-age disables Expires: such a response never gives a hit, whatever its
      Expires says. */
  lemma CacheControlDisablesExpires(lib: Lib, response: Http.Response, body: string, built: int, n: nat, now: int)
    requires Build(lib, response, body, built).Ok?
    requires Http.First(response.headers, CacheControl.CACHE_CONTROL).Some?
    requires "max-age" !in CacheControl.Directives(response.headers)
    ensures !IsValid(ValidatedTimes(Copied(Build(lib, response, body, built).value), n), now)
  {
    NoneIsNoHit(lib, response, body, built, n, now);
  }

  /** The Last-Modified heuristic parses the empty Expires text, so it never supplies a lifetime. */
  lemma HeuristicNeverApplies(lib: Lib, response: Http.Response, body: string, built: int, n: nat, now: int)
    requires lib.tryParse("") == None
    requires Build(lib, response, body, built).Ok?
    requires Http.First(response.headers, CacheControl.CACHE_CONTROL).None? && TextOf(response.headers, "expires") == ""
    ensures !IsValid(ValidatedTimes(Copied(Build(lib, response, body, built).value), n), now)
  {
    NoneIsNoHit(lib, response, body, built, n, now);
  }

  /** The comment on `validated` says the expiry becomes the current time plus the lifetime. */
  function AsCommented(e: Entry, now: int): Entry {
    if Seconds(e.lifetime) != -1 then e.(expire := now + e.lifetime) else e
  }

  /** For every entry, at any instant: the code allows no hit that the comment would not exactly when the entry has
      expired by then or can never be a hit; the two agree exactly when it expires at that very instant or can never
      be a hit. On an entry that another worker has already extended the code is the laxer of the two. */
  lemma ValidatedVersusComment(e: Entry, now: int)
    ensures (forall t :: IsValid(Validated(e), t) ==> IsValid(AsCommented(e, now), t))
            <==> e.expire <= now || e.noCache || Seconds(e.lifetime) == -1
    ensures (forall t :: IsValid(Validated(e), t) <==> IsValid(AsCommented(e, now), t))
            <==> e.expire == now || e.noCache || Seconds(e.lifetime) == -1
  {
    if !e.noCache && Seconds(e.lifetime) != -1 {
      var coded, commented := e.expire + e.lifetime, now + e.lifetime;
      if e.expire < now {
        assert !IsValid(Validated(e), coded) && IsValid(AsCommented(e, now), coded);
      } else if e.expire > now {
        assert IsValid(Validated(e), commented) && !IsValid(AsCommented(e, now), commented);
      }
    }
  }

  /** The entry after the same 304s, under the comment's rule. */
  function CommentedAfter(e: Entry, validations: seq<int>): Entry {
    if validations == [] then e
    else AsCommented(CommentedAfter(e, validations[..|validations| - 1]), validations[|validations| - 1])
  }

  /** Over any sequence of 304s, each received when the entry had expired: the expiry is exactly n lifetimes on, never
      later than the comment's, so that every hit is one under the comment's rule too. */
  lemma {:induction false} AccumulationRefinesComment(e: Entry, validations: seq<int>)
    requires forall i :: 0 <= i < |validations| ==> ValidatedTimes(e, i).expire <= validations[i]
    ensures var coded, commented := ValidatedTimes(e, |validations|), CommentedAfter(e, validations);
            && commented == coded.(expire := commented.expire) && coded.expire <= commented.expire
            && (Seconds(e.lifetime) != -1 ==> coded.expire == e.expire + |validations| * e.lifetime)
            && (Seconds(e.lifetime) != -1 && validations != [] ==>
                  commented.expire == validations[|validations| - 1] + e.lifetime)
            && forall t :: IsValid(coded, t) ==> IsValid(commented, t)
  {
    ExpiryAfter(e, |validations|);
    if validations != [] {
      var n := |validations| - 1;
      AccumulationRefinesComment(e, validations[..n]);
      ExpiryAfter(e, n);
    }
  }
}
