/** What one request does for its client and to the cache, in the protocol's own words: by header names, statuses and
    what the network answers, for every cache, request and script. */
module Replies {
  import opened Wrappers
  import opened Freshness
  import opened CacheKey
  import opened Proxy
  import opened Handler
  import Http
  import CacheControl
  import CacheInvariant

  // ---- Headers ----

  function Cookies(r: Http.Response, cookie: string): nat {
    multiset(Http.Values(r.headers, "set-cookie"))[cookie]
  }

  /** The client, whose response was `own`, gets in `to` the status of `from`, all its headers after its own, its
      cookies twice, and its content type, if that is not empty and the client has none. */
  ghost predicate Carries(own: Http.Response, from: Http.Response, to: Http.Response) {
    && to.status == from.status
    && (forall name :: name != "set-cookie" && name != "content-type" ==>
          Http.Values(to.headers, name) == Http.Values(own.headers, name) + Http.Values(from.headers, name))
    && (forall cookie :: Cookies(to, cookie) == Cookies(own, cookie) + 2 * Cookies(from, cookie))
    && (Http.Values(own.headers, "content-type") == [] ==>
          Http.Values(to.headers, "content-type")
          == if Http.First(from.headers, "content-type") == Some("") then []
             else Http.Values(from.headers, "content-type"))
  }

  lemma CopyCarries(own: Http.Response, from: Http.Response)
    ensures Carries(own, from, Http.CopyOnto(from, own))
  {
    var to := Http.CopyOnto(from, own);
    forall name | name != "set-cookie" && name != "content-type"
      ensures Http.Values(to.headers, name) == Http.Values(own.headers, name) + Http.Values(from.headers, name)
    {
      Http.CopyValues(from, own, name);
    }
    forall cookie ensures Cookies(to, cookie) == Cookies(own, cookie) + 2 * Cookies(from, cookie) {
      Http.CopyMultiplicity(from, own, cookie);
    }
    if Http.Values(own.headers, "content-type") == [] {
      Http.CopyContentType(from, own);
    }
  }

  // ---- Validators ----

  /** The validator of a response: its first ETag, or else its first Last-Modified. */
  function ValidatorIn(hs: seq<Http.Header>): Option<Validator> {
    match (Http.First(hs, "etag"), Http.First(hs, "last-modified"))
    case (Some(tag), _) => Some(ETag(tag))
    case (None, Some(date)) => Some(LastModified(date))
    case (None, None) => None
  }

  lemma ItemAsks(e: Entry)
    ensures ItemValidator(e) == ValidatorIn(e.response.headers)
  {
    Http.CopyToEmpty(e.response, "etag");
    Http.CopyToEmpty(e.response, "last-modified");
  }

  /** In every reachable state an entry is asked about with the first ETag the origin sent, or, if it sent none, with
      its first Last-Modified; with neither it is not asked about. */
  lemma OriginValidatorIsAsked(lib: Lib, now: int, events: seq<Event>, r: Ref)
    requires r < |Run(lib, Initial(now), events).heap|
    ensures var world := Story(lib, now, events);
            && world.proxy == Run(lib, Initial(now), events) && r < |world.trail|
            && var asked, origin := ItemValidator(world.proxy.heap[r]), world.trail[r].got.response.headers;
               match Http.First(origin, "etag")
               case Some(tag) => asked == Some(ETag(tag))
               case None =>
                 match Http.First(origin, "last-modified")
                 case Some(date) => asked == Some(LastModified(date))
                 case None => asked == None
  {
    StoryIsTheRun(lib, now, events);
    CacheInvariant.StoryIsTracked(lib, now, events);
    var world := Story(lib, now, events);
    assert CacheInvariant.EntryOk(lib, world.proxy.heap[r], world.trail[r]);
    AskedAsSent(world.trail[r].got.response, world.proxy.heap[r]);
  }

  lemma AskedAsSent(origin: Http.Response, e: Entry)
    requires e.response == Http.CopyOnto(Http.CopyOnto(origin, Http.EMPTY), Http.EMPTY)
    ensures ItemValidator(e) == ValidatorIn(origin.headers)
  {
    var once := Http.CopyOnto(origin, Http.EMPTY);
    Http.CopyToEmpty(origin, "etag");
    Http.CopyToEmpty(origin, "last-modified");
    Http.CopyToEmpty(once, "etag");
    Http.CopyToEmpty(once, "last-modified");
    ItemAsks(e);
  }

  // ---- The ways a request can go ----

  predicate Cached(view: map<string, Entry>, req: Request) {
    req.verb == "GET" && MakeKey(req.uri) in view
  }

  predicate Hits(view: map<string, Entry>, req: Request, s: Script) {
    Cached(view, req) && IsValid(view[MakeKey(req.uri)], s.checkedAt)
  }

  /** The cached entry is stale and has a validator, so the origin is asked about it. */
  predicate Asks(view: map<string, Entry>, req: Request, s: Script) {
    && Cached(view, req) && !Hits(view, req, s)
    && ValidatorIn(view[MakeKey(req.uri)].response.headers).Some?
  }

  predicate IsConfirmed(view: map<string, Entry>, req: Request, s: Script) {
    Asks(view, req, s) && s.ping == Some(304)
  }

  predicate AskingFails(view: map<string, Entry>, req: Request, s: Script) {
    Asks(view, req, s) && s.ping == None
  }

  predicate GoesToOrigin(view: map<string, Entry>, req: Request, s: Script) {
    !Hits(view, req, s) && !IsConfirmed(view, req, s) && !AskingFails(view, req, s)
  }

  /** The answer is a 200 to a GET whose first Cache-Control line says neither no-store nor private. */
  ghost predicate ToBeStored(req: Request, response: Http.Response) {
    && req.verb == "GET" && response.status == 200
    && !CacheControl.Says(response.headers, "no-store") && !CacheControl.Says(response.headers, "private")
  }

  /** The part of the body that was read. */
  function BodyRead(a: Answer): string {
    if a.read < |a.body| then a.body[..a.read] else a.body
  }

  lemma ToBeStoredIff(req: Request, response: Http.Response)
    ensures ToBeStored(req, response) <==> MayStore(req, response)
  {
    CacheControl.StorableIff(response.headers);
  }

  lemma WaysAre(view: map<string, Entry>, req: Request, s: Script)
    ensures Extends(view, req, s) <==> IsConfirmed(view, req, s)
    ensures Fetches(view, req, s) <==> GoesToOrigin(view, req, s)
  {
    if Cached(view, req) {
      ItemAsks(view[MakeKey(req.uri)]);
    }
  }

  // ---- What the client gets ----

  /** A fresh entry is replayed whole, headers and all, whatever the origin would say, and the cache stays as it is. */
  lemma HitIsReplayed(lib: Lib, view: map<string, Entry>, client: Http.Response, req: Request, s: Script)
    requires Hits(view, req, s) && s.sends
    ensures var r, e := Handle(lib, view, client, req, s), view[MakeKey(req.uri)];
            r.sent == Some(e.body) && Carries(client, e.response, r.client) && r.view == view && !r.escaped
  {
    CopyCarries(client, view[MakeKey(req.uri)].response);
  }

  /** So is a stale one that the origin confirms with 304; its expiry moves by its lifetime, if it has one. */
  lemma ConfirmedIsReplayed(lib: Lib, view: map<string, Entry>, client: Http.Response, req: Request, s: Script)
    requires IsConfirmed(view, req, s) && s.sends
    ensures var r, e := Handle(lib, view, client, req, s), view[MakeKey(req.uri)];
            && r.sent == Some(e.body) && Carries(client, e.response, r.client) && !r.escaped
            && r.view == view[MakeKey(req.uri) :=
                                if Seconds(e.lifetime) == -1 then e else e.(expire := e.expire + e.lifetime)]
  {
    var e := view[MakeKey(req.uri)];
    ItemAsks(e);
    CopyCarries(client, e.response);
    HandleCases(lib, view, client, req, s);
  }

  /** Any other request gets the origin's answer, headers and all, and as much of its body as was read. */
  lemma OriginIsRelayed(lib: Lib, view: map<string, Entry>, client: Http.Response, req: Request, s: Script)
    requires GoesToOrigin(view, req, s) && s.fetch.Some? && s.sends
    requires ToBeStored(req, s.fetch.value.response) ==> Made(lib, s).Ok?
    ensures var r, a := Handle(lib, view, client, req, s), s.fetch.value;
            r.sent == Some(BodyRead(a)) && Carries(client, a.response, r.client) && !r.escaped
  {
    WaysAre(view, req, s);
    WhenFetching(lib, view, client, req, s);
    ToBeStoredIff(req, s.fetch.value.response);
    CopyCarries(client, s.fetch.value.response);
  }

  /** The full answer does not come, or is to be stored and cannot be made into an entry. */
  ghost predicate FetchFails(lib: Lib, view: map<string, Entry>, req: Request, s: Script) {
    && GoesToOrigin(view, req, s)
    && (s.fetch.None? || (ToBeStored(req, s.fetch.value.response) && Made(lib, s).Threw?))
  }

  /** Exactly when the client gets no body: asking the origin fails, or fetching from it, or sending. It then gets a
      status of 400, unless the failure is one of the kind that escapes. */
  lemma FailsIff(lib: Lib, view: map<string, Entry>, client: Http.Response, req: Request, s: Script)
    ensures var r := Handle(lib, view, client, req, s);
            && (r.sent.None? <==> AskingFails(view, req, s) || FetchFails(lib, view, req, s) || !s.sends)
            && (r.sent.None? && !r.escaped ==> r.client.status == 400)
  {
    WaysAre(view, req, s);
    if Fetches(view, req, s) {
      WhenFetching(lib, view, client, req, s);
      if s.fetch.Some? {
        ToBeStoredIff(req, s.fetch.value.response);
      }
    } else {
      ItemAsks(view[MakeKey(req.uri)]);
      HandleCases(lib, view, client, req, s);
    }
  }

  // ---- What the cache gets ----

  ghost predicate StoresAnswer(lib: Lib, view: map<string, Entry>, req: Request, s: Script) {
    && GoesToOrigin(view, req, s) && s.fetch.Some? && ToBeStored(req, s.fetch.value.response)
    && Made(lib, s).Ok?
  }

  lemma StoresAnswerIff(lib: Lib, view: map<string, Entry>, req: Request, s: Script)
    ensures StoresAnswer(lib, view, req, s) <==> Stores(lib, view, req, s)
  {
    WaysAre(view, req, s);
    if s.fetch.Some? {
      ToBeStoredIff(req, s.fetch.value.response);
    }
  }

  /** Every answer that is to be stored is stored, whether or not the reply can be sent: under the request's key, with
      the body as read and with the answer's status, its headers and its expiry as settled by its constructor. */
  lemma AnswerIsStored(lib: Lib, view: map<string, Entry>, client: Http.Response, req: Request, s: Script)
    requires StoresAnswer(lib, view, req, s)
    ensures var r, a, key := Handle(lib, view, client, req, s), s.fetch.value, MakeKey(req.uri);
            && r.view.Keys == view.Keys - s.evicts + {key}
            && (forall k :: k in r.view && k != key ==> r.view[k] == view[k])
            && r.view[key].body == BodyRead(a) && r.view[key].response == Http.Chain(a.response, 2)
            && r.view[key].expire == Made(lib, s).value.expire && r.view[key].lifetime == Made(lib, s).value.lifetime
  {
    StoresAnswerIff(lib, view, req, s);
    OneChangeAtMost(lib, view, client, req, s);
    var a := s.fetch.value;
    BuildFailsIff(lib, a.response, BodyRead(a), s.builtAt);
    assert Http.Chain(a.response, 1) == Http.CopyOnto(a.response, Http.EMPTY);
  }

  /** And nothing else is: without such an answer the cache is as before, but for the expiry of a confirmed entry. */
  lemma NothingElseIsStored(lib: Lib, view: map<string, Entry>, client: Http.Response, req: Request, s: Script)
    requires !StoresAnswer(lib, view, req, s)
    ensures var r, key := Handle(lib, view, client, req, s), MakeKey(req.uri);
            && r.view.Keys == view.Keys
            && forall k :: k in view ==>
                 r.view[k] == if IsConfirmed(view, req, s) && k == key && Seconds(view[k].lifetime) != -1
                              then view[k].(expire := view[k].expire + view[k].lifetime)
                              else view[k]
  {
    StoresAnswerIff(lib, view, req, s);
    WaysAre(view, req, s);
    OneChangeAtMost(lib, view, client, req, s);
  }

  /** Of two requests with one key, the first of which fills the cache and the second of which hits, the first client
      gets each of the origin's cookies twice and the second eight times; any other header reaches both alike. */
  lemma MissThenHit(lib: Lib, view: map<string, Entry>, own: Http.Response, first: Request, s: Script,
                    other: Http.Response, second: Request, t: Script)
    requires StoresAnswer(lib, view, first, s) && s.sends && t.sends
    requires second.verb == "GET" && MakeKey(second.uri) == MakeKey(first.uri)
    requires IsValid(Copied(Made(lib, s).value), t.checkedAt)
    ensures var miss := Handle(lib, view, own, first, s);
            var hit, origin := Handle(lib, miss.view, other, second, t), s.fetch.value.response;
            && miss.sent == hit.sent == Some(BodyRead(s.fetch.value))
            && miss.client.status == hit.client.status == 200
            && (forall name :: name != "set-cookie" && name != "content-type" ==>
                  && Http.Values(miss.client.headers, name)
                     == Http.Values(own.headers, name) + Http.Values(origin.headers, name)
                  && Http.Values(hit.client.headers, name)
                     == Http.Values(other.headers, name) + Http.Values(origin.headers, name))
            && forall cookie ::
                 && Cookies(miss.client, cookie) == Cookies(own, cookie) + 2 * Cookies(origin, cookie)
                 && Cookies(hit.client, cookie) == Cookies(other, cookie) + 8 * Cookies(origin, cookie)
  {
    var miss, origin := Handle(lib, view, own, first, s), s.fetch.value.response;
    OriginIsRelayed(lib, view, own, first, s);
    StoredIsValid(lib, view, own, first, s, t.checkedAt);
    AnswerIsStored(lib, view, own, first, s);
    var e, hit := miss.view[MakeKey(first.uri)], Handle(lib, miss.view, other, second, t);
    HitIsReplayed(lib, miss.view, other, second, t);
    ChainIsCachedCopy(origin, e.response);
    HitCarriesOrigin(other, origin, e.response, hit.client);
  }

  lemma StoredIsValid(lib: Lib, view: map<string, Entry>, client: Http.Response, req: Request, s: Script, at: int)
    requires StoresAnswer(lib, view, req, s) && IsValid(Copied(Made(lib, s).value), at)
    ensures var r := Handle(lib, view, client, req, s);
            MakeKey(req.uri) in r.view && IsValid(r.view[MakeKey(req.uri)], at)
  {
    StoresAnswerIff(lib, view, req, s);
    OneChangeAtMost(lib, view, client, req, s);
  }

  /** What the constructor and the copy that `add` makes have left of the origin's response. */
  ghost predicate IsCachedCopy(origin: Http.Response, cached: Http.Response) {
    && cached.status == origin.status
    && (forall name :: name != "set-cookie" && name != "content-type" ==>
          Http.Values(cached.headers, name) == Http.Values(origin.headers, name))
    && forall cookie :: Cookies(cached, cookie) == 4 * Cookies(origin, cookie)
  }

  lemma CachedValues(origin: Http.Response, name: string)
    requires name != "set-cookie" && name != "content-type"
    ensures Http.Chain(origin, 2).status == origin.status
    ensures Http.Values(Http.Chain(origin, 2).headers, name) == Http.Values(origin.headers, name)
  {
    Http.ChainConserves(origin, 2, name);
  }

  lemma CachedCookies(origin: Http.Response, cookie: string)
    ensures Cookies(Http.Chain(origin, 2), cookie) == 4 * Cookies(origin, cookie)
  {
    Http.ChainMultipliesCookies(origin, 2, cookie);
    assert Http.Pow2(2) == 4 by { assert Http.Pow2(1) == 2 * Http.Pow2(0); }
  }

  lemma ChainIsCachedCopy(origin: Http.Response, cached: Http.Response)
    requires cached == Http.Chain(origin, 2)
    ensures IsCachedCopy(origin, cached)
  {
    CachedValues(origin, "date");
    forall name | name != "set-cookie" && name != "content-type"
      ensures Http.Values(cached.headers, name) == Http.Values(origin.headers, name)
    {
      CachedValues(origin, name);
    }
    forall cookie ensures Cookies(cached, cookie) == 4 * Cookies(origin, cookie) {
      CachedCookies(origin, cookie);
    }
  }

  lemma HitCarriesOrigin(other: Http.Response, origin: Http.Response, cached: Http.Response, to: Http.Response)
    requires IsCachedCopy(origin, cached) && Carries(other, cached, to)
    ensures to.status == origin.status
    ensures forall name :: name != "set-cookie" && name != "content-type" ==>
              Http.Values(to.headers, name) == Http.Values(other.headers, name) + Http.Values(origin.headers, name)
    ensures forall cookie :: Cookies(to, cookie) == Cookies(other, cookie) + 8 * Cookies(origin, cookie)
  {
  }
}
