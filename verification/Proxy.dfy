/** The request handlers of all workers over the one static cache, as a machine whose steps interleave freely.

    A worker runs handleRequest for one request after another. Its position in the code is a Task; every lock-free
    stretch between two calls that other workers or the network can observe is one step. Entries live in a heap, as
    a worker may hold (and extend) an entry that has already been replaced in the map. */
module Proxy {
  import opened Wrappers
  import opened Freshness
  import opened CacheKey
  import Http
  import CacheControl

  type Worker = nat
  type Ref = nat

  datatype Request = Request(verb: string, uri: Uri)

  function Get(uri: Uri): Request {
    Request("GET", uri)
  }

  const NOT_MODIFIED := 304

  // ---- Conditional requests ----

  datatype Validator = ETag(tag: string) | LastModified(date: string)

  /** The validator updateCacheItem sends: If-None-Match is preferred over If-Modified-Since. */
  function ValidatorOf(hs: seq<Http.Header>): Option<Validator> {
    match Http.First(hs, "etag")
    case Some(tag) => Some(ETag(tag))
    case None =>
      match Http.First(hs, "last-modified")
      case Some(date) => Some(LastModified(date))
      case None => None
  }

  /** It reads the headers off yet another copy of the cached response. */
  function ItemValidator(e: Entry): Option<Validator> {
    ValidatorOf(Http.CopyOnto(e.response, Http.EMPTY).headers)
  }

  // ---- States ----

  /** A response as received: the instant, its status line and headers, and the part of the body that was read. */
  datatype Received = Received(at: int, response: Http.Response, body: string)

  /** Why an entry may be replayed: it passed the freshness check, or the origin answered 304 at an instant. */
  datatype Warrant = Fresh | Confirmed(at: int)

  datatype Task =
    | Lookup(req: Request, start: int)
    | Check(req: Request, start: int, item: Ref)
    | Ping(req: Request, start: int, item: Ref, checked: int)
    | Extend(req: Request, start: int, item: Ref, checked: int, confirmed: int)
    | Replay(req: Request, start: int, item: Ref, checked: int, warrant: Warrant)
    | Fetch(req: Request, start: int)
    | Store(req: Request, start: int, got: Received)
    | Deliver(req: Request, start: int, got: Received)

  datatype Source = FromCache(item: Ref, checked: int, warrant: Warrant) | FromOrigin

  datatype Reply = Reply(req: Request, start: int, at: int, source: Source, status: int, body: string)

  datatype Proxy = Proxy(
    now: int,
    heap: seq<Entry>,
    cache: map<string, Ref>,
    tasks: map<Worker, Task>,
    replies: seq<Reply>)

  datatype Event =
    | Tick(elapsed: nat)
    | Evict(keys: set<string>)
    | Begin(w: Worker, req: Request)
    | Act(w: Worker)
    | PingAnswer(w: Worker, status: int)
    | FetchAnswer(w: Worker, response: Http.Response, body: string, read: nat)
    | Throw(w: Worker)

  function Initial(now: int): Proxy {
    Proxy(now, [], map[], map[], [])
  }

  // ---- Steps ----

  /** The prefix of the body that was read before the stream ended or failed; the stream insertion in remoteReq
      swallows that failure. */
  function Read(body: string, read: nat): string {
    if read < |body| then body[..read] else body
  }

  predicate MayStore(req: Request, response: Http.Response) {
    req.verb == "GET" && response.status == Http.HTTP_OK && CacheControl.Storable(response.headers)
  }

  function Goes(p: Proxy, w: Worker, task: Task): Proxy {
    p.(tasks := p.tasks[w := task])
  }

  function Leaves(p: Proxy, w: Worker): Proxy {
    p.(tasks := p.tasks - {w})
  }

  function Answers(p: Proxy, w: Worker, reply: Reply): Proxy {
    Leaves(p, w).(replies := p.replies + [reply])
  }

  /** A step of the handler's own code. */
  function Acts(lib: Lib, p: Proxy, w: Worker): Proxy {
    if w !in p.tasks then p
    else
      match p.tasks[w]
      case Lookup(req, start) =>
        var key := MakeKey(req.uri);
        Goes(p, w, if key in p.cache then Check(req, start, p.cache[key]) else Fetch(req, start))
      case Check(req, start, item) =>
        if item >= |p.heap| then p
        else if IsValid(p.heap[item], p.now) then Goes(p, w, Replay(req, start, item, p.now, Fresh))
        else if ItemValidator(p.heap[item]).Some? then Goes(p, w, Ping(req, start, item, p.now))
        else Goes(p, w, Fetch(req, start))
      case Extend(req, start, item, checked, confirmed) =>
        if item >= |p.heap| then p
        else
          Goes(p, w, Replay(req, start, item, checked, Confirmed(confirmed)))
          .(heap := p.heap[item := Validated(p.heap[item])])
      case Replay(req, start, item, checked, warrant) =>
        if item >= |p.heap| then p
        else
          var e := p.heap[item];
          Answers(p, w, Reply(req, start, p.now, FromCache(item, checked, warrant), e.response.status, e.body))
      case Store(req, start, got) => (
        match Build(lib, got.response, got.body, p.now)
        case Threw(_) => Leaves(p, w)
        case Ok(e) =>
          Goes(p, w, Deliver(req, start, got))
          .(heap := p.heap + [Copied(e)], cache := p.cache[MakeKey(req.uri) := |p.heap|]))
      case Deliver(req, start, got) =>
        Answers(p, w, Reply(req, start, p.now, FromOrigin, got.response.status, got.body))
      case _ => p
  }

  function Step(lib: Lib, p: Proxy, e: Event): Proxy {
    match e
    case Tick(elapsed) => p.(now := p.now + elapsed)
    case Evict(keys) => p.(cache := p.cache - keys)
    case Begin(w, req) =>
      if w in p.tasks then p
      else Goes(p, w, if req.verb == "GET" then Lookup(req, p.now) else Fetch(req, p.now))
    case Act(w) => Acts(lib, p, w)
    case PingAnswer(w, status) =>
      if w in p.tasks && p.tasks[w].Ping? then
        var t := p.tasks[w];
        Goes(p, w, if status == NOT_MODIFIED then Extend(t.req, t.start, t.item, t.checked, p.now)
                   else Fetch(t.req, t.start))
      else p
    case FetchAnswer(w, response, body, read) =>
      if w in p.tasks && p.tasks[w].Fetch? then
        var t, got := p.tasks[w], Received(p.now, response, Read(body, read));
        Goes(p, w, if MayStore(t.req, response) then Store(t.req, t.start, got) else Deliver(t.req, t.start, got))
      else p
    case Throw(w) => Leaves(p, w)
  }

  function Run(lib: Lib, p: Proxy, events: seq<Event>): Proxy {
    if events == [] then p
    else Step(lib, Run(lib, p, events[..|events| - 1]), events[|events| - 1])
  }

  lemma {:induction false} RunFirst(lib: Lib, p: Proxy, e: Event, rest: seq<Event>)
    ensures Run(lib, p, [e] + rest) == Run(lib, Step(lib, p, e), rest)
  {
    var events := [e] + rest;
    if rest == [] {
      assert events[..0] == [] && events[0] == e;
    } else {
      var n := |rest| - 1;
      RunFirst(lib, p, e, rest[..n]);
      assert events[..n + 1] == [e] + rest[..n];
    }
  }

  lemma RunOne(lib: Lib, p: Proxy, e: Event)
    ensures Run(lib, p, [e]) == Step(lib, p, e)
  {
    RunFirst(lib, p, e, []);
    assert [e] + [] == [e];
  }

  // ---- History: what is remembered about each heap entry for the proofs only ----

  /** Where an entry came from (`uri`, `got`, and the instant it was `built`); the latest instant `credit` at which
      its expiry was known to be past, or counted from; the latest instant `held` at which the origin vouched for
      it; whether a 304 was applied to it; and the most workers that ever were, at one time, between finding it
      stale and applying or dropping its revalidation. */
  datatype Trail = Trail(uri: Uri, got: Received, built: int, credit: int, held: int, extended: bool, overlap: nat)

  datatype World = World(proxy: Proxy, trail: seq<Trail>)

  predicate Waits(task: Task, item: Ref) {
    (task.Ping? || task.Extend?) && task.item == item
  }

  /** The workers between a failed check of `item` and its extension. */
  function Pending(p: Proxy, item: Ref): set<Worker> {
    set w | w in p.tasks && Waits(p.tasks[w], item)
  }

  function Max(a: int, b: int): int {
    if a < b then b else a
  }

  /** The history after an event; `p` and `next` are the states around it. */
  function Record(lib: Lib, p: Proxy, trail: seq<Trail>, e: Event, next: Proxy): seq<Trail> {
    if e.Act? && e.w in p.tasks then
      var t := p.tasks[e.w];
      if t.Check? && t.item < |trail| then
        trail[t.item := trail[t.item].(overlap := Max(trail[t.item].overlap, |Pending(next, t.item)|))]
      else if t.Extend? && t.item < |trail| then
        var was := trail[t.item];
        trail[t.item := was.(credit := Max(was.credit, t.checked),
                             held := Max(was.held, t.confirmed), extended := true)]
      else if t.Store? && |next.heap| > |p.heap| then
        var entry := next.heap[|p.heap|];
        var credit := if entry.mustRevalidate then p.now else entry.responseTime;
        trail + [Trail(t.req.uri, t.got, p.now, credit, t.got.at, false, 1)]
      else trail
    else trail
  }

  function Next(lib: Lib, world: World, e: Event): World {
    var next := Step(lib, world.proxy, e);
    World(next, Record(lib, world.proxy, world.trail, e, next))
  }

  function Story(lib: Lib, now: int, events: seq<Event>): World {
    if events == [] then World(Initial(now), [])
    else Next(lib, Story(lib, now, events[..|events| - 1]), events[|events| - 1])
  }

  /** Keeping the history has no influence on the run. */
  lemma {:induction false} StoryIsTheRun(lib: Lib, now: int, events: seq<Event>)
    ensures Story(lib, now, events).proxy == Run(lib, Initial(now), events)
  {
    if events != [] {
      StoryIsTheRun(lib, now, events[..|events| - 1]);
    }
  }
}
