/** One request, handled from start to end: the code of ProxyRequestHandler over the cache object, against a function
    of the cache's contents and the answers of the network. */
module Handler {
  import opened Wrappers
  import opened Freshness
  import opened CacheKey
  import opened Proxy
  import CacheInvariant
  import Http
  import CacheControl

  const HTTP_BAD_REQUEST := 400

  /** What the origin sends, and how much of the body is read. */
  datatype Answer = Answer(response: Http.Response, body: string, read: nat)

  /** Everything the environment decides while one request is handled: the clock at the freshness check and when an
      entry is built, the status of the answer to the conditional request, the answer to the full request, which
      other keys the cache evicts, and whether sending succeeds. None means that the call throws. */
  datatype Script = Script(
    checkedAt: int,
    ping: Option<int>,
    fetch: Option<Answer>,
    builtAt: int,
    evicts: set<string>,
    sends: bool)

  /** The cache afterwards, the client's response object, the body if it was sent, and an exception that
      handleRequest does not catch. */
  datatype Result = Result(view: map<string, Entry>, client: Http.Response, sent: Option<string>, escaped: bool)

  // ---- Specification ----

  function Failed(view: map<string, Entry>, client: Http.Response, e: Exception): Result {
    if e == PocoException then Result(view, client.(status := HTTP_BAD_REQUEST), None, false)
    else Result(view, client, None, true)
  }

  /** How a call that ran to its end, or was cut short by an exception, looks to the client. */
  function Finished(view: map<string, Entry>, client: Http.Response, sent: Option<string>,
                    thrown: Option<Exception>): Result
  {
    match thrown
    case Some(e) => Failed(view, client, e)
    case None => Result(view, client, sent, false)
  }

  function Sent(view: map<string, Entry>, client: Http.Response, body: string, sends: bool): Result {
    if sends then Result(view, client, Some(body), false) else Failed(view, client, PocoException)
  }

  function Added(view: map<string, Entry>, key: string, e: Entry, evicts: set<string>): map<string, Entry> {
    (view - evicts)[key := Copied(e)]
  }

  function Remote(lib: Lib, view: map<string, Entry>, client: Http.Response, req: Request, s: Script): Result {
    match s.fetch
    case None => Failed(view, client, PocoException)
    case Some(a) =>
      var copied, body := Http.CopyOnto(a.response, client), Read(a.body, a.read);
      if MayStore(req, a.response) then
        match Build(lib, a.response, body, s.builtAt)
        case Threw(e) => Failed(view, copied, e)
        case Ok(e) => Sent(Added(view, MakeKey(req.uri), e, s.evicts), copied, body, s.sends)
      else Sent(view, copied, body, s.sends)
  }

  function Replayed(view: map<string, Entry>, client: Http.Response, e: Entry, s: Script): Result {
    Sent(view, Http.CopyOnto(e.response, client), e.body, s.sends)
  }

  /** Whether the conditional request is made and answered 304. */
  predicate Confirms(e: Entry, s: Script) {
    ItemValidator(e).Some? && s.ping == Some(NOT_MODIFIED)
  }

  /** What happens to a stale item otherwise. */
  function NotConfirmed(lib: Lib, view: map<string, Entry>, client: Http.Response, req: Request, s: Script,
                        e: Entry): Result
  {
    if ItemValidator(e).Some? && s.ping.None? then Failed(view, client, PocoException)
    else Remote(lib, view, client, req, s)
  }

  function Handle(lib: Lib, view: map<string, Entry>, client: Http.Response, req: Request, s: Script): Result {
    var key := MakeKey(req.uri);
    if req.verb == "GET" && key in view then
      var e := view[key];
      if IsValid(e, s.checkedAt) then Replayed(view, client, e, s)
      else if Confirms(e, s) then Replayed(view[key := Validated(e)], client, Validated(e), s)
      else NotConfirmed(lib, view, client, req, s, e)
    else Remote(lib, view, client, req, s)
  }

  /** The ways a GET whose key is in the cache can go. */
  lemma HandleCases(lib: Lib, view: map<string, Entry>, client: Http.Response, req: Request, s: Script)
    requires req.verb == "GET" && MakeKey(req.uri) in view
    ensures var key := MakeKey(req.uri);
            Handle(lib, view, client, req, s)
            == if IsValid(view[key], s.checkedAt) then Replayed(view, client, view[key], s)
               else if Confirms(view[key], s) then
                 Replayed(view[key := Validated(view[key])], client, Validated(view[key]), s)
               else NotConfirmed(lib, view, client, req, s, view[key])
  {
  }

  // ---- The code ----

  class ProxyServerCache {
    var items: map<string, CacheResponse>

    /** No object is shared between two entries: `Add` only ever puts in new copies. */
    ghost predicate Valid()
      reads this
    {
      forall k, l :: k in items && l in items && k != l ==>
        items[k] != items[l] && items[k].responseObj != items[l].responseObj
    }

    ghost function View(): map<string, Entry>
      reads this, items.Values, set k | k in items :: items[k].responseObj
    {
      map k | k in items :: items[k].State()
    }

    constructor ()
      ensures Valid() && View() == map[]
    {
      items := map[];
    }

    method Get(key: string) returns (item: CacheResponse?)
      ensures (item == null) == (key !in items)
      ensures item != null ==> item == items[key]
    {
      item := if key in items then items[key] else null;
    }

    method Add(key: string, value: CacheResponse, evicts: set<string>)
      requires Valid()
      modifies this
      ensures Valid()
      ensures View() == Added(old(View()), key, value.State(), evicts)
      ensures forall k :: k in items ==> fresh(items[k].responseObj) || (k in old(items) && items[k] == old(items)[k])
    {
      var copy := new CacheResponse.Copy(value);
      items := (items - evicts)[key := copy];
    }
  }

  class ProxyRequestHandler {
    const staticCache: ProxyServerCache

    constructor (cache: ProxyServerCache)
      ensures staticCache == cache
    {
      staticCache := cache;
    }

    /** The client's response object is not part of the cache. */
    ghost predicate Apart(resp: Http.HttpMessage)
      reads staticCache
    {
      forall k :: k in staticCache.items ==> staticCache.items[k].responseObj != resp
    }

    /** The storing half of remoteReq: nothing, an exception from the constructor, or one added entry. */
    method StoreResponse(lib: Lib, req: Request, proxyResp: Http.HttpMessage, body: string, s: Script)
      returns (thrown: Option<Exception>)
      requires staticCache.Valid()
      modifies staticCache
      ensures staticCache.Valid()
      ensures forall k :: k in staticCache.items ==>
                || fresh(staticCache.items[k].responseObj)
                || (k in old(staticCache.items) && staticCache.items[k] == old(staticCache.items)[k])
      ensures if MayStore(req, proxyResp.State()) then
                match Build(lib, proxyResp.State(), body, s.builtAt)
                case Threw(e) => thrown == Some(e) && staticCache.View() == old(staticCache.View())
                case Ok(e) =>
                  && thrown == None
                  && staticCache.View() == Added(old(staticCache.View()), MakeKey(req.uri), e, s.evicts)
              else
                thrown == None && staticCache.View() == old(staticCache.View())
    {
      thrown := None;
      CacheControl.StorableIff(proxyResp.headers);
      var cacheable := CacheControl.IsCacheableResp(proxyResp.headers);
      if req.verb == "GET" && proxyResp.status == 200 && cacheable {
        var made := CacheResponse.FromResponse(lib, proxyResp, body, s.builtAt);
        assert staticCache.View() == old(staticCache.View());
        if made.Threw? {
          thrown := Some(made.exception);
        } else {
          staticCache.Add(MakeKey(req.uri), made.value, s.evicts);
        }
      }
    }

    method RemoteReq(lib: Lib, req: Request, resp: Http.HttpMessage, s: Script)
      returns (sent: Option<string>, thrown: Option<Exception>)
      requires staticCache.Valid() && Apart(resp)
      modifies staticCache, resp
      ensures staticCache.Valid() && Apart(resp)
      ensures Remote(lib, old(staticCache.View()), old(resp.State()), req, s)
              == Finished(staticCache.View(), resp.State(), sent, thrown)
    {
      if s.fetch.None? {
        return None, Some(PocoException);
      }
      var answer := s.fetch.value;
      var proxyResp := new Http.HttpMessage();
      proxyResp.status, proxyResp.headers := answer.response.status, answer.response.headers;
      Http.CopyResponseObj(proxyResp, resp);
      assert proxyResp.State() == answer.response;
      assert staticCache.View() == old(staticCache.View());
      var body := Read(answer.body, answer.read);
      thrown := StoreResponse(lib, req, proxyResp, body, s);
      if thrown.Some? {
        return None, thrown;
      }
      if s.sends {
        return Some(body), None;
      }
      return None, Some(PocoException);
    }

    /** Replays an item to the client. */
    method Respond(ghost key: string, item: CacheResponse, resp: Http.HttpMessage, s: Script)
      returns (sent: Option<string>, thrown: Option<Exception>)
      requires Apart(resp) && key in staticCache.items && staticCache.items[key] == item
      modifies resp
      ensures staticCache.View() == old(staticCache.View())
      ensures Finished(staticCache.View(), resp.State(), sent, thrown)
              == Replayed(staticCache.View(), old(resp.State()), item.State(), s)
    {
      item.GetResponse(resp);
      if s.sends {
        return Some(item.responseData), None;
      }
      return None, Some(PocoException);
    }

    /** The conditional request, and with which validator it is made: true if the origin confirmed the item, whose
        expiry is then extended. */
    method Revalidate(item: CacheResponse, s: Script)
      returns (confirmed: bool, asked: Option<Validator>, thrown: Option<Exception>)
      modifies item`expireTimestamp
      ensures confirmed == Confirms(old(item.State()), s)
      ensures asked == ItemValidator(old(item.State()))
      ensures item.State() == if confirmed then Validated(old(item.State())) else old(item.State())
      ensures thrown == if asked.Some? && s.ping.None? then Some(PocoException) else None
    {
      var cacheResponseObj := new Http.HttpMessage();
      item.GetResponse(cacheResponseObj);
      confirmed, asked, thrown := false, None, None;
      var etag := Http.First(cacheResponseObj.headers, "etag");
      var lm := Http.First(cacheResponseObj.headers, "last-modified");
      if etag.Some? {
        asked := Some(ETag(etag.value));
      } else if lm.Some? {
        asked := Some(LastModified(lm.value));
      }
      if asked.Some? {
        if s.ping.None? {
          thrown := Some(PocoException);
        } else if s.ping.value == 304 {
          item.Revalidated();
          confirmed := true;
        }
      }
    }

    /** True if a full request was made, since the item could not be confirmed. */
    method UpdateCacheItem(lib: Lib, req: Request, resp: Http.HttpMessage, item: CacheResponse, s: Script)
      returns (itemInvalid: bool, sent: Option<string>, thrown: Option<Exception>)
      requires staticCache.Valid() && Apart(resp)
      requires MakeKey(req.uri) in staticCache.items && item == staticCache.items[MakeKey(req.uri)]
      modifies staticCache, item`expireTimestamp, resp
      ensures staticCache.Valid() && Apart(resp)
      ensures (!itemInvalid && thrown.None?) == Confirms(old(item.State()), s)
      ensures if Confirms(old(item.State()), s) then
                && item.State() == Validated(old(item.State())) && resp.State() == old(resp.State())
                && staticCache.items == old(staticCache.items)
                && staticCache.View() == old(staticCache.View())[MakeKey(req.uri) := item.State()]
              else
                Finished(staticCache.View(), resp.State(), sent, thrown)
                == NotConfirmed(lib, old(staticCache.View()), old(resp.State()), req, s, old(item.State()))
    {
      var confirmed, asked;
      confirmed, asked, thrown := Revalidate(item, s);
      sent, itemInvalid := None, false;
      if !confirmed && thrown.None? {
        assert staticCache.View() == old(staticCache.View());
        itemInvalid := true;
        sent, thrown := RemoteReq(lib, req, resp, s);
      }
    }

    method HandleRequest(lib: Lib, req: Request, resp: Http.HttpMessage, s: Script)
      returns (sent: Option<string>, escaped: bool)
      requires staticCache.Valid() && Apart(resp)
      modifies staticCache, staticCache.items.Values, resp
      ensures staticCache.Valid()
      ensures Result(staticCache.View(), resp.State(), sent, escaped)
              == Handle(lib, old(staticCache.View()), old(resp.State()), req, s)
    {
      var thrown: Option<Exception>;
      sent, thrown := Dispatch(lib, req, resp, s);
      escaped := false;
      if thrown.Some? {
        sent := None;
        if thrown.value == PocoException {
          resp.status := HTTP_BAD_REQUEST;
        } else {
          escaped := true;
        }
      }
    }

    /** The branch of the try block for a GET whose key is in the cache. */
    method HandleCached(lib: Lib, req: Request, resp: Http.HttpMessage, checkResponse: CacheResponse, s: Script)
      returns (sent: Option<string>, thrown: Option<Exception>)
      requires staticCache.Valid() && Apart(resp) && req.verb == "GET"
      requires MakeKey(req.uri) in staticCache.items && checkResponse == staticCache.items[MakeKey(req.uri)]
      modifies staticCache, checkResponse`expireTimestamp, resp
      ensures staticCache.Valid() && Apart(resp)
      ensures Handle(lib, old(staticCache.View()), old(resp.State()), req, s)
              == Finished(staticCache.View(), resp.State(), sent, thrown)
    {
      ghost var view, client, e := staticCache.View(), resp.State(), checkResponse.State();
      assert view[MakeKey(req.uri)] == e;
      HandleCases(lib, view, client, req, s);
      ghost var expected := Handle(lib, view, client, req, s);
      var validItem := checkResponse.IsValidResponse(s.checkedAt);
      if !validItem {
        var itemInvalid;
        itemInvalid, sent, thrown := UpdateCacheItem(lib, req, resp, checkResponse, s);
        if itemInvalid || thrown.Some? {
          assert expected == NotConfirmed(lib, view, client, req, s, e);
          return;
        }
        assert staticCache.View() == view[MakeKey(req.uri) := checkResponse.State()];
        assert expected == Replayed(staticCache.View(), resp.State(), checkResponse.State(), s);
      } else {
        assert expected == Replayed(staticCache.View(), resp.State(), checkResponse.State(), s);
      }
      sent, thrown := Respond(MakeKey(req.uri), checkResponse, resp, s);
    }

    /** The body of the try block. */
    method Dispatch(lib: Lib, req: Request, resp: Http.HttpMessage, s: Script)
      returns (sent: Option<string>, thrown: Option<Exception>)
      requires staticCache.Valid() && Apart(resp)
      modifies staticCache, staticCache.items.Values, resp
      ensures staticCache.Valid() && Apart(resp)
      ensures Handle(lib, old(staticCache.View()), old(resp.State()), req, s)
              == Finished(staticCache.View(), resp.State(), sent, thrown)
    {
      if req.verb == "GET" {
        var checkResponse := staticCache.Get(MakeKey(req.uri));
        if checkResponse != null {
          sent, thrown := HandleCached(lib, req, resp, checkResponse, s);
          return;
        }
      }
      sent, thrown := RemoteReq(lib, req, resp, s);
    }
  }

  // ---- What one request can do to the cache ----

  /** The request is a GET whose stale entry the origin confirms. */
  predicate Extends(view: map<string, Entry>, req: Request, s: Script) {
    var key := MakeKey(req.uri);
    req.verb == "GET" && key in view && !IsValid(view[key], s.checkedAt) && Confirms(view[key], s)
  }

  /** The request goes to the origin in full: it is not answered from the cache, nor cut short by a failing question
      about the cached entry. */
  predicate Fetches(view: map<string, Entry>, req: Request, s: Script) {
    var key := MakeKey(req.uri);
    req.verb == "GET" && key in view ==>
      && !IsValid(view[key], s.checkedAt) && !Confirms(view[key], s)
      && !(ItemValidator(view[key]).Some? && s.ping.None?)
  }

  /** Its full answer arrives and may be stored. */
  predicate MayFill(view: map<string, Entry>, req: Request, s: Script) {
    Fetches(view, req, s) && s.fetch.Some? && MayStore(req, s.fetch.value.response)
  }

  /** The entry that such an answer is made into, unless that fails. */
  function Made(lib: Lib, s: Script): Outcome<Entry>
    requires s.fetch.Some?
  {
    Build(lib, s.fetch.value.response, Read(s.fetch.value.body, s.fetch.value.read), s.builtAt)
  }

  predicate Stores(lib: Lib, view: map<string, Entry>, req: Request, s: Script) {
    MayFill(view, req, s) && Made(lib, s).Ok?
  }

  lemma WhenFetching(lib: Lib, view: map<string, Entry>, client: Http.Response, req: Request, s: Script)
    requires Fetches(view, req, s)
    ensures Handle(lib, view, client, req, s) == Remote(lib, view, client, req, s) && !Extends(view, req, s)
  {
  }

  lemma WhenNotFetching(lib: Lib, view: map<string, Entry>, client: Http.Response, req: Request, s: Script)
    requires !Fetches(view, req, s)
    ensures var key := MakeKey(req.uri);
            && key in view
            && Handle(lib, view, client, req, s).view
               == if Extends(view, req, s) then view[key := Validated(view[key])] else view
  {
  }

  lemma FilledView(lib: Lib, view: map<string, Entry>, client: Http.Response, req: Request, s: Script)
    ensures Remote(lib, view, client, req, s).view
            == if s.fetch.Some? && MayStore(req, s.fetch.value.response) && Made(lib, s).Ok?
               then Added(view, MakeKey(req.uri), Made(lib, s).value, s.evicts)
               else view
  {
  }

  /** Every request makes at most one change, and under its own key (evictions aside): it extends the confirmed entry,
      or adds the one it fetched. Wherever it is cut short, the change is whole or absent. */
  lemma OneChangeAtMost(lib: Lib, view: map<string, Entry>, client: Http.Response, req: Request, s: Script)
    ensures var r, key := Handle(lib, view, client, req, s), MakeKey(req.uri);
            && !(Extends(view, req, s) && Stores(lib, view, req, s))
            && (Extends(view, req, s) ==> r.view == view[key := Validated(view[key])])
            && (Stores(lib, view, req, s) ==> r.view == Added(view, key, Made(lib, s).value, s.evicts))
            && (!Extends(view, req, s) && !Stores(lib, view, req, s) ==> r.view == view)
  {
    if Fetches(view, req, s) {
      WhenFetching(lib, view, client, req, s);
      FilledView(lib, view, client, req, s);
    } else {
      WhenNotFetching(lib, view, client, req, s);
    }
  }

  /** The request leaves the cache other than it was: it extends an entry by a lifetime that is not zero and not the
      sentinel, or it adds an entry that is not already there, or evicts others. */
  predicate Changes(lib: Lib, view: map<string, Entry>, req: Request, s: Script) {
    var key := MakeKey(req.uri);
    || (Extends(view, req, s) && view[key].lifetime != 0 && Seconds(view[key].lifetime) != -1)
    || (Stores(lib, view, req, s)
        && !(key in view && view[key] == Copied(Made(lib, s).value) && view.Keys * s.evicts <= {key}))
  }

  lemma AddedIsSame(view: map<string, Entry>, key: string, e: Entry, evicts: set<string>)
    ensures Added(view, key, e, evicts) == view
            <==> key in view && view[key] == Copied(e) && view.Keys * evicts <= {key}
  {
    var added := Added(view, key, e, evicts);
    assert added.Keys == view.Keys - evicts + {key};
    assert added[key] == Copied(e);
    if key in view && view[key] == Copied(e) && view.Keys * evicts <= {key} {
      assert added.Keys == view.Keys;
      assert forall k :: k in view ==> added[k] == view[k];
    }
  }

  /** Exactly when the cache changes; and a request that does change it fails exactly when its reply could not be sent
      afterwards, so that one that fails earlier has left the cache as it was. */
  lemma ChangesIff(lib: Lib, view: map<string, Entry>, client: Http.Response, req: Request, s: Script)
    ensures var r := Handle(lib, view, client, req, s);
            && (r.view != view <==> Changes(lib, view, req, s))
            && (r.view != view ==> (r.sent.None? <==> !s.sends))
            && (r.sent.None? && s.sends ==> r.view == view)
  {
    OneChangeAtMost(lib, view, client, req, s);
    var key := MakeKey(req.uri);
    if Extends(view, req, s) {
      assert view[key := Validated(view[key])] == view <==> Validated(view[key]) == view[key] by {
        assert view[key := Validated(view[key])][key] == Validated(view[key]);
      }
    } else if Stores(lib, view, req, s) {
      AddedIsSame(view, key, Made(lib, s).value, s.evicts);
    }
  }

  /** Exactly when an exception escapes the handler: a storable answer, received in full, has a readable Date and a
      Cache-Control line whose max-age stod rejects. Then nothing is stored, nothing sent, and the status is not the
      400 of other failures. */
  lemma EscapesIff(lib: Lib, view: map<string, Entry>, client: Http.Response, req: Request, s: Script)
    ensures var r := Handle(lib, view, client, req, s);
            && (r.escaped <==>
                  && MayFill(view, req, s)
                  && var hs := s.fetch.value.response.headers;
                     && DateOf(lib, hs).Some?
                     && "max-age" in CacheControl.Directives(hs)
                     && lib.stod(CacheControl.Directives(hs)["max-age"]).None?)
            && (r.escaped ==>
                  r.view == view && r.sent.None? && r.client == Http.CopyOnto(s.fetch.value.response, client))
  {
  }

  lemma OnlyGetsChangeTheCache(lib: Lib, view: map<string, Entry>, client: Http.Response, req: Request, s: Script)
    requires req.verb != "GET"
    ensures Handle(lib, view, client, req, s).view == view
  {
  }

  /** The strong guarantee promised in handleRequest, that a failing request leaves everything unmodified, does not
      hold: this failing request fills the empty cache. */
  lemma FailureCanChangeTheCache(lib: Lib, req: Request, a: Answer, now: int)
    requires MayStore(req, a.response) && Build(lib, a.response, Read(a.body, a.read), now).Ok?
    ensures var r := Handle(lib, map[], Http.EMPTY, req, Script(now, None, Some(a), now, {}, false));
            r.sent.None? && r.client.status == HTTP_BAD_REQUEST && MakeKey(req.uri) in r.view
  {
  }

  // ---- A request handled alone is a run of the machine ----

  predicate Sound(p: Proxy) {
    && (forall k :: k in p.cache ==> p.cache[k] < |p.heap|)
    && forall k, l :: k in p.cache && l in p.cache && k != l ==> p.cache[k] != p.cache[l]
  }

  /** So is every reachable state. */
  lemma RunIsSound(lib: Lib, now: int, events: seq<Event>)
    ensures Sound(Run(lib, Initial(now), events))
  {
    StoryIsTheRun(lib, now, events);
    CacheInvariant.StoryIsTracked(lib, now, events);
    var world := Story(lib, now, events);
    assert CacheInvariant.MapOk(world);
  }

  function ViewOf(p: Proxy): map<string, Entry>
    requires Sound(p)
  {
    map k | k in p.cache :: p.heap[p.cache[k]]
  }

  function SendEvent(w: Worker, s: Script): Event {
    if s.sends then Act(w) else Throw(w)
  }

  function StoreEvents(lib: Lib, now: int, w: Worker, req: Request, s: Script): seq<Event>
    requires s.fetch.Some? && now <= s.builtAt
  {
    var a := s.fetch.value;
    if !MayStore(req, a.response) then [SendEvent(w, s)]
    else if Build(lib, a.response, Read(a.body, a.read), s.builtAt).Threw? then [Tick(s.builtAt - now)] + [Act(w)]
    else [Tick(s.builtAt - now)] + ([Evict(s.evicts)] + ([Act(w)] + [SendEvent(w, s)]))
  }

  function RemoteEvents(lib: Lib, now: int, w: Worker, req: Request, s: Script): seq<Event>
    requires now <= s.builtAt
  {
    match s.fetch
    case None => [Throw(w)]
    case Some(a) => [FetchAnswer(w, a.response, a.body, a.read)] + StoreEvents(lib, now, w, req, s)
  }

  function PingEvents(lib: Lib, now: int, w: Worker, req: Request, s: Script): seq<Event>
    requires now <= s.builtAt
  {
    match s.ping
    case None => [Throw(w)]
    case Some(status) =>
      [PingAnswer(w, status)] +
      if status == NOT_MODIFIED then [Act(w)] + [SendEvent(w, s)] else RemoteEvents(lib, now, w, req, s)
  }

  /** From the freshness check on; `item` is the entry found. */
  function CheckEvents(lib: Lib, now: int, w: Worker, req: Request, s: Script, item: Entry): seq<Event>
    requires now <= s.builtAt
  {
    [Act(w)] +
    if IsValid(item, now) then [SendEvent(w, s)]
    else if ItemValidator(item).None? then RemoteEvents(lib, now, w, req, s)
    else PingEvents(lib, now, w, req, s)
  }

  function After(e: Event, rest: seq<Event>): seq<Event> {
    [e] + rest
  }

  /** After the lookup. */
  function LookupEvents(lib: Lib, now: int, view: map<string, Entry>, w: Worker, req: Request, s: Script): seq<Event>
    requires now <= s.checkedAt <= s.builtAt
  {
    if MakeKey(req.uri) !in view then RemoteEvents(lib, now, w, req, s)
    else After(Tick(s.checkedAt - now), CheckEvents(lib, s.checkedAt, w, req, s, view[MakeKey(req.uri)]))
  }

  /** The events of one request by worker `w`, under the same answers. */
  function RequestEvents(lib: Lib, now: int, view: map<string, Entry>, w: Worker, req: Request, s: Script): seq<Event>
    requires now <= s.checkedAt <= s.builtAt
  {
    [Begin(w, req)]
    + if req.verb == "GET" then [Act(w)] + LookupEvents(lib, now, view, w, req, s)
      else RemoteEvents(lib, now, w, req, s)
  }

  /** The request is over, the cache holds `r.view`, and the client got what `r` says. */
  ghost predicate Ends(p: Proxy, q: Proxy, w: Worker, req: Request, r: Result) {
    && Sound(q) && ViewOf(q) == r.view
    && q.tasks == p.tasks - {w}
    && match r.sent
       case None => q.replies == p.replies
       case Some(body) =>
         && |q.replies| == |p.replies| + 1 && q.replies[..|p.replies|] == p.replies
         && q.replies[|p.replies|].req == req && q.replies[|p.replies|].status == r.client.status
         && q.replies[|p.replies|].body == body
  }

  lemma AnswersEnd(p: Proxy, w: Worker, reply: Reply, r: Result)
    requires Sound(p) && r.view == ViewOf(p) && r.sent == Some(reply.body) && r.client.status == reply.status
    ensures Ends(p, Answers(p, w, reply), w, reply.req, r)
  {
  }

  lemma LeavesEnd(p: Proxy, w: Worker, req: Request, r: Result)
    requires Sound(p) && r.view == ViewOf(p) && r.sent == None
    ensures Ends(p, Leaves(p, w), w, req, r)
  {
  }

  /** Sending, from a task whose next step is the given reply. */
  lemma SendEnds(lib: Lib, p: Proxy, w: Worker, s: Script, reply: Reply, client: Http.Response)
    requires Sound(p) && client.status == reply.status
    requires Step(lib, p, Act(w)) == Answers(p, w, reply)
    ensures Ends(p, Run(lib, p, [SendEvent(w, s)]), w, reply.req, Sent(ViewOf(p), client, reply.body, s.sends))
  {
    RunOne(lib, p, SendEvent(w, s));
    if s.sends {
      AnswersEnd(p, w, reply, Sent(ViewOf(p), client, reply.body, true));
    } else {
      LeavesEnd(p, w, reply.req, Sent(ViewOf(p), client, reply.body, false));
    }
  }

  lemma DeliverEnds(lib: Lib, p: Proxy, w: Worker, client: Http.Response, s: Script)
    requires Sound(p) && w in p.tasks && p.tasks[w].Deliver?
    ensures var t := p.tasks[w];
            Ends(p, Run(lib, p, [SendEvent(w, s)]), w, t.req,
                 Sent(ViewOf(p), Http.CopyOnto(t.got.response, client), t.got.body, s.sends))
  {
    var t := p.tasks[w];
    SendEnds(lib, p, w, s, Reply(t.req, t.start, p.now, FromOrigin, t.got.response.status, t.got.body),
             Http.CopyOnto(t.got.response, client));
  }

  lemma ReplayEnds(lib: Lib, p: Proxy, w: Worker, client: Http.Response, s: Script)
    requires Sound(p) && w in p.tasks && p.tasks[w].Replay? && p.tasks[w].item < |p.heap|
    ensures var t := p.tasks[w];
            Ends(p, Run(lib, p, [SendEvent(w, s)]), w, t.req, Replayed(ViewOf(p), client, p.heap[t.item], s))
  {
    var t := p.tasks[w];
    var e := p.heap[t.item];
    var source := FromCache(t.item, t.checked, t.warrant);
    SendEnds(lib, p, w, s, Reply(t.req, t.start, p.now, source, e.response.status, e.body),
             Http.CopyOnto(e.response, client));
  }

  /** An exception ends the request where it stands. */
  lemma ThrowEnds(lib: Lib, p: Proxy, w: Worker, req: Request, client: Http.Response)
    requires Sound(p)
    ensures Ends(p, Run(lib, p, [Throw(w)]), w, req, Failed(ViewOf(p), client, PocoException))
  {
    RunOne(lib, p, Throw(w));
    LeavesEnd(p, w, req, Failed(ViewOf(p), client, PocoException));
  }

  // Moving the worker's task or the clock along does not change what it means to end.

  ghost predicate SameButWorker(p: Proxy, q: Proxy, w: Worker) {
    q.heap == p.heap && q.cache == p.cache && q.replies == p.replies && q.tasks - {w} == p.tasks - {w}
  }

  lemma SameView(p: Proxy, q: Proxy, w: Worker)
    requires Sound(p) && SameButWorker(p, q, w)
    ensures Sound(q) && ViewOf(q) == ViewOf(p)
  {
  }

  lemma EndsEarlier(p: Proxy, p1: Proxy, q: Proxy, w: Worker, req: Request, r: Result)
    requires p1.replies == p.replies && p1.tasks - {w} == p.tasks - {w} && Ends(p1, q, w, req, r)
    ensures Ends(p, q, w, req, r)
  {
  }

  /** One step of the worker's own, and then the rest. */
  lemma StepThenEnds(lib: Lib, p: Proxy, e: Event, rest: seq<Event>, w: Worker, req: Request, r: Result)
    requires Step(lib, p, e).replies == p.replies && Step(lib, p, e).tasks - {w} == p.tasks - {w}
    requires Ends(Step(lib, p, e), Run(lib, Step(lib, p, e), rest), w, req, r)
    ensures Ends(p, Run(lib, p, [e] + rest), w, req, r)
  {
    RunFirst(lib, p, e, rest);
    EndsEarlier(p, Step(lib, p, e), Run(lib, p, [e] + rest), w, req, r);
  }

  lemma TickThenEnds(lib: Lib, p: Proxy, later: Proxy, tick: Event, events: seq<Event>, rest: seq<Event>, w: Worker,
                     req: Request, r: Result)
    requires p.now <= later.now && later == p.(now := later.now) && Ends(later, Run(lib, later, rest), w, req, r)
    requires tick == Tick(later.now - p.now) && events == After(tick, rest)
    ensures Ends(p, Run(lib, p, events), w, req, r)
  {
    assert Step(lib, p, tick) == later;
    StepThenEnds(lib, p, tick, rest, w, req, r);
  }

  lemma AddedView(p: Proxy, key: string, e: Entry, evicts: set<string>, q: Proxy)
    requires Sound(p)
    requires q.heap == p.heap + [Copied(e)] && q.cache == (p.cache - evicts)[key := |p.heap|]
    ensures Sound(q) && ViewOf(q) == Added(ViewOf(p), key, e, evicts)
  {
    var view := Added(ViewOf(p), key, e, evicts);
    assert q.cache.Keys == view.Keys;
    forall k | k in q.cache ensures q.heap[q.cache[k]] == view[k] {
    }
  }

  lemma BuildFailureEnds(lib: Lib, p: Proxy, w: Worker, client: Http.Response)
    requires Sound(p) && w in p.tasks && p.tasks[w].Store?
    requires Build(lib, p.tasks[w].got.response, p.tasks[w].got.body, p.now).Threw?
    ensures var t := p.tasks[w];
            Ends(p, Run(lib, p, [Act(w)]), w, t.req,
                 Failed(ViewOf(p), Http.CopyOnto(t.got.response, client),
                        Build(lib, t.got.response, t.got.body, p.now).exception))
  {
    var t := p.tasks[w];
    RunOne(lib, p, Act(w));
    LeavesEnd(p, w, t.req,
              Failed(ViewOf(p), Http.CopyOnto(t.got.response, client),
                     Build(lib, t.got.response, t.got.body, p.now).exception));
  }

  /** `before` is the state before evictions, which `p` has undergone. */
  lemma BuildSuccessEnds(lib: Lib, before: Proxy, p: Proxy, w: Worker, client: Http.Response, s: Script)
    requires Sound(before) && p == before.(cache := before.cache - s.evicts) && w in p.tasks && p.tasks[w].Store?
    requires Build(lib, p.tasks[w].got.response, p.tasks[w].got.body, p.now).Ok?
    ensures var t := p.tasks[w];
            Ends(p, Run(lib, p, [Act(w)] + [SendEvent(w, s)]), w, t.req,
                 Sent(Added(ViewOf(before), MakeKey(t.req.uri), Build(lib, t.got.response, t.got.body, p.now).value,
                            s.evicts),
                      Http.CopyOnto(t.got.response, client), t.got.body, s.sends))
  {
    var t, p1 := p.tasks[w], Step(lib, p, Act(w));
    var e := Build(lib, t.got.response, t.got.body, p.now).value;
    AddedView(before, MakeKey(t.req.uri), e, s.evicts, p1);
    DeliverEnds(lib, p1, w, client, s);
    StepThenEnds(lib, p, Act(w), [SendEvent(w, s)], w, t.req,
                 Sent(ViewOf(p1), Http.CopyOnto(t.got.response, client), t.got.body, s.sends));
  }

  lemma StoringEvents(lib: Lib, now: int, w: Worker, req: Request, s: Script, tick: Event, rest: seq<Event>)
    requires s.fetch.Some? && now <= s.builtAt && MayStore(req, s.fetch.value.response) && tick == Tick(s.builtAt - now)
    requires var a := s.fetch.value;
             rest == if Build(lib, a.response, Read(a.body, a.read), s.builtAt).Threw? then [Act(w)]
                     else [Evict(s.evicts)] + ([Act(w)] + [SendEvent(w, s)])
    ensures StoreEvents(lib, now, w, req, s) == After(tick, rest)
  {
  }

  /** The full answer has arrived and may be stored. */
  lemma StoreEnds(lib: Lib, p: Proxy, w: Worker, client: Http.Response, s: Script)
    requires Sound(p) && w in p.tasks && p.tasks[w].Store? && p.now <= s.builtAt && s.fetch.Some?
    requires var t, a := p.tasks[w], s.fetch.value;
             MayStore(t.req, a.response) && t.got.response == a.response && t.got.body == Read(a.body, a.read)
    ensures var t := p.tasks[w];
            Ends(p, Run(lib, p, StoreEvents(lib, p.now, w, t.req, s)), w, t.req,
                 Remote(lib, ViewOf(p), client, t.req, s))
  {
    var t, later := p.tasks[w], p.(now := s.builtAt);
    var events := StoreEvents(lib, p.now, w, t.req, s);
    SameView(p, later, w);
    var built := Build(lib, t.got.response, t.got.body, later.now);
    var copied, tick := Http.CopyOnto(t.got.response, client), Tick(later.now - p.now);
    var rest := if built.Threw? then [Act(w)] else [Evict(s.evicts)] + ([Act(w)] + [SendEvent(w, s)]);
    StoringEvents(lib, p.now, w, t.req, s, tick, rest);
    if built.Threw? {
      BuildFailureEnds(lib, later, w, client);
      TickThenEnds(lib, p, later, tick, events, rest, w, t.req, Failed(ViewOf(later), copied, built.exception));
    } else {
      EvictionEnds(lib, later, w, client, s);
      TickThenEnds(lib, p, later, tick, events, rest, w, t.req,
                   Sent(Added(ViewOf(later), MakeKey(t.req.uri), built.value, s.evicts), copied, t.got.body, s.sends));
    }
  }

  lemma EvictionEnds(lib: Lib, p: Proxy, w: Worker, client: Http.Response, s: Script)
    requires Sound(p) && w in p.tasks && p.tasks[w].Store?
    requires Build(lib, p.tasks[w].got.response, p.tasks[w].got.body, p.now).Ok?
    ensures var t := p.tasks[w];
            Ends(p, Run(lib, p, [Evict(s.evicts)] + ([Act(w)] + [SendEvent(w, s)])), w, t.req,
                 Sent(Added(ViewOf(p), MakeKey(t.req.uri), Build(lib, t.got.response, t.got.body, p.now).value,
                            s.evicts),
                      Http.CopyOnto(t.got.response, client), t.got.body, s.sends))
  {
    var t := p.tasks[w];
    BuildSuccessEnds(lib, p, Step(lib, p, Evict(s.evicts)), w, client, s);
    StepThenEnds(lib, p, Evict(s.evicts), [Act(w)] + [SendEvent(w, s)], w, t.req,
                 Sent(Added(ViewOf(p), MakeKey(t.req.uri), Build(lib, t.got.response, t.got.body, p.now).value,
                            s.evicts),
                      Http.CopyOnto(t.got.response, client), t.got.body, s.sends));
  }

  lemma RemoteEnds(lib: Lib, p: Proxy, w: Worker, client: Http.Response, s: Script)
    requires Sound(p) && w in p.tasks && p.tasks[w].Fetch? && p.now <= s.builtAt
    ensures var t := p.tasks[w];
            Ends(p, Run(lib, p, RemoteEvents(lib, p.now, w, t.req, s)), w, t.req,
                 Remote(lib, ViewOf(p), client, t.req, s))
  {
    var t := p.tasks[w];
    match s.fetch
    case None => ThrowEnds(lib, p, w, t.req, client);
    case Some(a) =>
      var fetch := FetchAnswer(w, a.response, a.body, a.read);
      var p1 := Step(lib, p, fetch);
      SameView(p, p1, w);
      if MayStore(t.req, a.response) {
        StoreEnds(lib, p1, w, client, s);
      } else {
        DeliverEnds(lib, p1, w, client, s);
      }
      StepThenEnds(lib, p, fetch, StoreEvents(lib, p.now, w, t.req, s), w, t.req,
                   Remote(lib, ViewOf(p), client, t.req, s));
  }

  lemma ExtendedView(p: Proxy, key: string, q: Proxy)
    requires Sound(p) && key in p.cache && q.cache == p.cache
    requires q.heap == p.heap[p.cache[key] := Validated(p.heap[p.cache[key]])]
    ensures Sound(q) && ViewOf(q) == ViewOf(p)[key := Validated(p.heap[p.cache[key]])]
  {
  }

  lemma ConfirmedEnds(lib: Lib, p: Proxy, w: Worker, client: Http.Response, s: Script, key: string)
    requires Sound(p) && w in p.tasks && p.tasks[w].Extend? && key in p.cache && p.tasks[w].item == p.cache[key]
    ensures var t, e := p.tasks[w], p.heap[p.cache[key]];
            Ends(p, Run(lib, p, [Act(w)] + [SendEvent(w, s)]), w, t.req,
                 Replayed(ViewOf(p)[key := Validated(e)], client, Validated(e), s))
  {
    var t, e, p1 := p.tasks[w], p.heap[p.cache[key]], Step(lib, p, Act(w));
    ExtendedView(p, key, p1);
    ReplayEnds(lib, p1, w, client, s);
    StepThenEnds(lib, p, Act(w), [SendEvent(w, s)], w, t.req, Replayed(ViewOf(p1), client, Validated(e), s));
  }

  lemma PingEnds(lib: Lib, p: Proxy, w: Worker, client: Http.Response, s: Script, key: string)
    requires Sound(p) && w in p.tasks && p.tasks[w].Ping? && key in p.cache && p.tasks[w].item == p.cache[key]
    requires p.now <= s.builtAt && ItemValidator(p.heap[p.cache[key]]).Some?
    ensures var req, e := p.tasks[w].req, p.heap[p.cache[key]];
            Ends(p, Run(lib, p, PingEvents(lib, p.now, w, req, s)), w, req,
                 if Confirms(e, s) then Replayed(ViewOf(p)[key := Validated(e)], client, Validated(e), s)
                 else NotConfirmed(lib, ViewOf(p), client, req, s, e))
  {
    var req, e := p.tasks[w].req, p.heap[p.cache[key]];
    match s.ping
    case None => ThrowEnds(lib, p, w, req, client);
    case Some(status) =>
      var ping := PingAnswer(w, status);
      var p1 := Step(lib, p, ping);
      SameView(p, p1, w);
      if status == NOT_MODIFIED {
        ConfirmedEnds(lib, p1, w, client, s, key);
        StepThenEnds(lib, p, ping, [Act(w)] + [SendEvent(w, s)], w, req,
                     Replayed(ViewOf(p)[key := Validated(e)], client, Validated(e), s));
      } else {
        RemoteEnds(lib, p1, w, client, s);
        StepThenEnds(lib, p, ping, RemoteEvents(lib, p.now, w, req, s), w, req, Remote(lib, ViewOf(p), client, req, s));
      }
  }

  lemma CheckEnds(lib: Lib, p: Proxy, w: Worker, client: Http.Response, s: Script, key: string,
                  view: map<string, Entry>)
    requires Sound(p) && view == ViewOf(p) && w in p.tasks && p.tasks[w].Check?
    requires key in p.cache && p.tasks[w].item == p.cache[key]
    requires p.now == s.checkedAt <= s.builtAt && p.tasks[w].req.verb == "GET" && key == MakeKey(p.tasks[w].req.uri)
    ensures var req := p.tasks[w].req;
            Ends(p, Run(lib, p, CheckEvents(lib, p.now, w, req, s, view[key])), w, req,
                 Handle(lib, view, client, req, s))
  {
    var req, e := p.tasks[w].req, view[key];
    var p1 := Step(lib, p, Act(w));
    SameView(p, p1, w);
    if IsValid(e, p.now) {
      ReplayEnds(lib, p1, w, client, s);
      StepThenEnds(lib, p, Act(w), [SendEvent(w, s)], w, req, Replayed(view, client, e, s));
    } else if ItemValidator(e).None? {
      RemoteEnds(lib, p1, w, client, s);
      StepThenEnds(lib, p, Act(w), RemoteEvents(lib, p.now, w, req, s), w, req, Remote(lib, view, client, req, s));
    } else {
      PingEnds(lib, p1, w, client, s, key);
      StepThenEnds(lib, p, Act(w), PingEvents(lib, p.now, w, req, s), w, req, Handle(lib, view, client, req, s));
    }
  }

  lemma HitEvents(lib: Lib, now: int, view: map<string, Entry>, w: Worker, req: Request, s: Script, tick: Event,
                  rest: seq<Event>)
    requires now <= s.checkedAt <= s.builtAt && MakeKey(req.uri) in view
    requires tick == Tick(s.checkedAt - now)
    requires rest == CheckEvents(lib, s.checkedAt, w, req, s, view[MakeKey(req.uri)])
    ensures LookupEvents(lib, now, view, w, req, s) == After(tick, rest)
  {
  }

  lemma HitEnds(lib: Lib, p: Proxy, w: Worker, client: Http.Response, s: Script, key: string,
                view: map<string, Entry>)
    requires Sound(p) && view == ViewOf(p) && w in p.tasks && p.tasks[w].Check?
    requires key in p.cache && p.tasks[w].item == p.cache[key]
    requires p.now <= s.checkedAt <= s.builtAt && p.tasks[w].req.verb == "GET" && key == MakeKey(p.tasks[w].req.uri)
    ensures var req := p.tasks[w].req;
            Ends(p, Run(lib, p, LookupEvents(lib, p.now, view, w, req, s)), w, req, Handle(lib, view, client, req, s))
  {
    var req, later := p.tasks[w].req, p.(now := s.checkedAt);
    SameView(p, later, w);
    CheckEnds(lib, later, w, client, s, key, view);
    var events, rest := LookupEvents(lib, p.now, view, w, req, s), CheckEvents(lib, later.now, w, req, s, view[key]);
    var tick := Tick(later.now - p.now);
    HitEvents(lib, p.now, view, w, req, s, tick, rest);
    TickThenEnds(lib, p, later, tick, events, rest, w, req, Handle(lib, view, client, req, s));
  }

  lemma LookupEnds(lib: Lib, p: Proxy, w: Worker, client: Http.Response, s: Script, view: map<string, Entry>)
    requires Sound(p) && w in p.tasks && p.tasks[w].Lookup? && view == ViewOf(p)
    requires p.tasks[w].req.verb == "GET" && p.now <= s.checkedAt <= s.builtAt
    ensures var req := p.tasks[w].req;
            var events := [Act(w)] + LookupEvents(lib, p.now, view, w, req, s);
            Ends(p, Run(lib, p, events), w, req, Handle(lib, view, client, req, s))
  {
    var req, key, p1 := p.tasks[w].req, MakeKey(p.tasks[w].req.uri), Step(lib, p, Act(w));
    SameView(p, p1, w);
    if key in p.cache {
      HitEnds(lib, p1, w, client, s, key, view);
    } else {
      RemoteEnds(lib, p1, w, client, s);
    }
    StepThenEnds(lib, p, Act(w), LookupEvents(lib, p.now, view, w, req, s), w, req, Handle(lib, view, client, req, s));
  }

  /** Handled alone, a request leaves the machine with the same cache and the same reply as HandleRequest. */
  lemma SoloRunIsHandleRequest(lib: Lib, p: Proxy, w: Worker, req: Request, client: Http.Response, s: Script)
    requires Sound(p) && w !in p.tasks && p.now <= s.checkedAt <= s.builtAt
    ensures Ends(p, Run(lib, p, RequestEvents(lib, p.now, ViewOf(p), w, req, s)), w, req,
                 Handle(lib, ViewOf(p), client, req, s))
  {
    var p1, view := Step(lib, p, Begin(w, req)), ViewOf(p);
    var r := Handle(lib, view, client, req, s);
    SameView(p, p1, w);
    if req.verb == "GET" {
      LookupEnds(lib, p1, w, client, s, view);
      StepThenEnds(lib, p, Begin(w, req), [Act(w)] + LookupEvents(lib, p.now, view, w, req, s), w, req, r);
    } else {
      RemoteEnds(lib, p1, w, client, s);
      StepThenEnds(lib, p, Begin(w, req), RemoteEvents(lib, p.now, w, req, s), w, req, r);
    }
  }
}
