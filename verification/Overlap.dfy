/** Many workers revalidate the same entry at once: the bound on its expiry is met, on a pool of any size. */
module Overlap {
  import opened Freshness
  import opened CacheKey
  import opened Proxy
  import opened ExpiryBound
  import CacheInvariant
  import Http

  // ---- The schedule ----

  /** A worker asks for the key, finds the entry stale, and is about to ask the origin. */
  function AskedBy(k: Worker, req: Request): seq<Event> {
    [Begin(k, req)] + [Act(k)] + [Act(k)]
  }

  /** It is told 304 and extends the entry. */
  function AnsweredTo(k: Worker): seq<Event> {
    [PingAnswer(k, NOT_MODIFIED)] + [Act(k)]
  }

  function Flatten(pieces: seq<seq<Event>>): seq<Event> {
    if pieces == [] then [] else Flatten(pieces[..|pieces| - 1]) + pieces[|pieces| - 1]
  }

  /** So do workers 0 to n - 1. */
  function Askings(req: Request, n: nat): seq<seq<Event>> {
    seq(n, k requires 0 <= k < n => AskedBy(k, req))
  }

  function Answerings(n: nat): seq<seq<Event>> {
    seq(n, k requires 0 <= k < n => AnsweredTo(k))
  }

  function Asking(req: Request, n: nat): seq<Event> {
    Flatten(Askings(req, n))
  }

  function Answering(n: nat): seq<Event> {
    Flatten(Answerings(n))
  }

  function Revalidations(req: Request, n: nat): seq<Event> {
    Asking(req, n) + Answering(n)
  }

  // ---- Runs, composed of pieces ----

  function Then(events: seq<Event>, rest: seq<Event>): seq<Event> {
    events + rest
  }

  /** From `p` the events lead to `q`, and whatever comes after them goes on from there. */
  ghost predicate Reaches(lib: Lib, p: Proxy, events: seq<Event>, q: Proxy) {
    forall rest {:trigger Then(events, rest)} :: Run(lib, p, Then(events, rest)) == Run(lib, q, rest)
  }

  lemma OneReaches(lib: Lib, p: Proxy, e: Event, q: Proxy)
    requires Step(lib, p, e) == q
    ensures Reaches(lib, p, [e], q)
  {
    forall rest ensures Run(lib, p, Then([e], rest)) == Run(lib, q, rest) {
      RunFirst(lib, p, e, rest);
    }
  }

  lemma NoneReaches(lib: Lib, p: Proxy)
    ensures Reaches(lib, p, [], p)
  {
    forall rest: seq<Event> ensures Run(lib, p, Then([], rest)) == Run(lib, p, rest) {
      assert Then([], rest) == rest;
    }
  }

  lemma ReachesThen(lib: Lib, p: Proxy, a: seq<Event>, q: Proxy, b: seq<Event>, r: Proxy)
    requires Reaches(lib, p, a, q) && Reaches(lib, q, b, r)
    ensures Reaches(lib, p, a + b, r)
  {
    forall rest ensures Run(lib, p, Then(a + b, rest)) == Run(lib, r, rest) {
      assert Then(a + b, rest) == Then(a, Then(b, rest));
    }
  }

  /** Each piece leads from one of the states to the next. */
  ghost predicate Links(lib: Lib, states: seq<Proxy>, pieces: seq<seq<Event>>) {
    |states| == |pieces| + 1 && forall k :: 0 <= k < |pieces| ==> Reaches(lib, states[k], pieces[k], states[k + 1])
  }

  lemma {:induction false} LinksReach(lib: Lib, states: seq<Proxy>, pieces: seq<seq<Event>>)
    requires Links(lib, states, pieces)
    ensures Reaches(lib, states[0], Flatten(pieces), states[|pieces|])
  {
    if pieces == [] {
      NoneReaches(lib, states[0]);
    } else {
      var n := |pieces| - 1;
      LinksReach(lib, states[..|pieces|], pieces[..n]);
      ReachesThen(lib, states[0], Flatten(pieces[..n]), states[n], pieces[n], states[n + 1]);
    }
  }

  lemma RunReaches(lib: Lib, p: Proxy, events: seq<Event>, q: Proxy)
    requires Reaches(lib, p, events, q)
    ensures Run(lib, p, events) == q
  {
    assert Then(events, []) == events;
  }

  // The steps of one worker that finds the entry stale.

  lemma Begins(lib: Lib, q: Proxy, k: Worker, req: Request)
    requires req.verb == "GET" && k !in q.tasks
    ensures Reaches(lib, q, [Begin(k, req)], q.(tasks := q.tasks[k := Lookup(req, q.now)]))
  {
    OneReaches(lib, q, Begin(k, req), q.(tasks := q.tasks[k := Lookup(req, q.now)]));
  }

  lemma Finds(lib: Lib, q: Proxy, k: Worker, req: Request, start: int)
    requires k in q.tasks && q.tasks[k] == Lookup(req, start) && MakeKey(req.uri) in q.cache
    ensures Reaches(lib, q, [Act(k)], q.(tasks := q.tasks[k := Check(req, start, q.cache[MakeKey(req.uri)])]))
  {
    OneReaches(lib, q, Act(k), q.(tasks := q.tasks[k := Check(req, start, q.cache[MakeKey(req.uri)])]));
  }

  lemma WillPing(lib: Lib, q: Proxy, k: Worker, req: Request, start: int, item: Ref)
    requires k in q.tasks && q.tasks[k] == Check(req, start, item) && item < |q.heap|
    requires !IsValid(q.heap[item], q.now) && ItemValidator(q.heap[item]).Some?
    ensures Reaches(lib, q, [Act(k)], q.(tasks := q.tasks[k := Ping(req, start, item, q.now)]))
  {
    OneReaches(lib, q, Act(k), q.(tasks := q.tasks[k := Ping(req, start, item, q.now)]));
  }

  lemma IsTold(lib: Lib, q: Proxy, k: Worker, req: Request, start: int, item: Ref, checked: int)
    requires k in q.tasks && q.tasks[k] == Ping(req, start, item, checked)
    ensures Reaches(lib, q, [PingAnswer(k, NOT_MODIFIED)],
                    q.(tasks := q.tasks[k := Extend(req, start, item, checked, q.now)]))
  {
    OneReaches(lib, q, PingAnswer(k, NOT_MODIFIED),
               q.(tasks := q.tasks[k := Extend(req, start, item, checked, q.now)]));
  }

  lemma Extends(lib: Lib, q: Proxy, k: Worker, req: Request, start: int, item: Ref, checked: int, at: int)
    requires k in q.tasks && q.tasks[k] == Extend(req, start, item, checked, at) && item < |q.heap|
    ensures Reaches(lib, q, [Act(k)], q.(tasks := q.tasks[k := Replay(req, start, item, checked, Confirmed(at))],
                                         heap := q.heap[item := Validated(q.heap[item])]))
  {
    OneReaches(lib, q, Act(k), q.(tasks := q.tasks[k := Replay(req, start, item, checked, Confirmed(at))],
                                  heap := q.heap[item := Validated(q.heap[item])]));
  }

  /** The key's entry has expired and can be confirmed. */
  predicate Expired(p: Proxy, req: Request, item: Ref) {
    && req.verb == "GET" && MakeKey(req.uri) in p.cache && p.cache[MakeKey(req.uri)] == item < |p.heap|
    && !IsValid(p.heap[item], p.now) && ItemValidator(p.heap[item]).Some?
  }

  lemma OneAsks(lib: Lib, q: Proxy, k: Worker, req: Request, item: Ref)
    requires k !in q.tasks && Expired(q, req, item)
    ensures Reaches(lib, q, AskedBy(k, req), q.(tasks := q.tasks[k := Ping(req, q.now, item, q.now)]))
  {
    var q1 := q.(tasks := q.tasks[k := Lookup(req, q.now)]);
    var q2 := q.(tasks := q.tasks[k := Check(req, q.now, item)]);
    var q3 := q.(tasks := q.tasks[k := Ping(req, q.now, item, q.now)]);
    Begins(lib, q, k, req);
    Finds(lib, q1, k, req, q.now);
    assert q1.(tasks := q1.tasks[k := Check(req, q.now, item)]) == q2;
    WillPing(lib, q2, k, req, q.now, item);
    assert q2.(tasks := q2.tasks[k := Ping(req, q.now, item, q.now)]) == q3;
    ReachesThen(lib, q, [Begin(k, req)], q1, [Act(k)], q2);
    ReachesThen(lib, q, [Begin(k, req)] + [Act(k)], q2, [Act(k)], q3);
  }

  /** The tasks once the first `k` workers have asked, and once the first `k` of `n` have then extended the entry. */
  function AskedTasks(p: Proxy, req: Request, item: Ref, k: nat): (tasks: map<Worker, Task>)
    ensures forall w :: 0 <= w < k ==> w in tasks && tasks[w] == Ping(req, p.now, item, p.now)
    ensures forall w :: w >= k ==> (w in tasks <==> w in p.tasks)
  {
    if k == 0 then p.tasks else AskedTasks(p, req, item, k - 1)[k - 1 := Ping(req, p.now, item, p.now)]
  }

  function ExtendedTasks(p: Proxy, req: Request, item: Ref, k: nat, n: nat): (tasks: map<Worker, Task>)
    ensures forall w :: k <= w < n ==> w in tasks && tasks[w] == Ping(req, p.now, item, p.now)
  {
    if k == 0 then AskedTasks(p, req, item, n)
    else ExtendedTasks(p, req, item, k - 1, n)[k - 1 := Replay(req, p.now, item, p.now, Confirmed(p.now))]
  }

  function AskedState(p: Proxy, req: Request, item: Ref, k: nat): Proxy {
    p.(tasks := AskedTasks(p, req, item, k))
  }

  lemma AskNext(lib: Lib, p: Proxy, req: Request, item: Ref, k: nat)
    requires Expired(p, req, item) && k !in p.tasks
    ensures Reaches(lib, AskedState(p, req, item, k), AskedBy(k, req), AskedState(p, req, item, k + 1))
  {
    OneAsks(lib, AskedState(p, req, item, k), k, req, item);
  }

  lemma AllAsk(lib: Lib, p: Proxy, req: Request, item: Ref, n: nat)
    requires Expired(p, req, item) && forall w :: 0 <= w < n ==> w !in p.tasks
    ensures Reaches(lib, p, Asking(req, n), AskedState(p, req, item, n))
  {
    var states := seq(n + 1, k requires 0 <= k <= n => AskedState(p, req, item, k));
    forall k | 0 <= k < n ensures Reaches(lib, states[k], Askings(req, n)[k], states[k + 1]) {
      AskNext(lib, p, req, item, k);
    }
    LinksReach(lib, states, Askings(req, n));
  }

  function ExtendedState(p: Proxy, req: Request, item: Ref, k: nat, n: nat): Proxy
    requires item < |p.heap|
  {
    p.(tasks := ExtendedTasks(p, req, item, k, n), heap := p.heap[item := ValidatedTimes(p.heap[item], k)])
  }

  lemma OneExtends(lib: Lib, p: Proxy, req: Request, item: Ref, k: nat, n: nat)
    requires k < n && item < |p.heap|
    ensures Reaches(lib, ExtendedState(p, req, item, k, n), AnsweredTo(k), ExtendedState(p, req, item, k + 1, n))
  {
    var q, next := ExtendedState(p, req, item, k, n), ExtendedState(p, req, item, k + 1, n);
    var q1 := q.(tasks := q.tasks[k := Extend(req, p.now, item, p.now, p.now)]);
    var replay := Replay(req, p.now, item, p.now, Confirmed(p.now));
    IsTold(lib, q, k, req, p.now, item, p.now);
    Extends(lib, q1, k, req, p.now, item, p.now, p.now);
    assert q1.tasks[k := replay] == q.tasks[k := replay] == next.tasks;
    assert q1.heap[item := Validated(q1.heap[item])] == next.heap;
    ReachesThen(lib, q, [PingAnswer(k, NOT_MODIFIED)], q1, [Act(k)], next);
  }

  lemma AllExtend(lib: Lib, p: Proxy, req: Request, item: Ref, n: nat)
    requires item < |p.heap|
    ensures Reaches(lib, AskedState(p, req, item, n), Answering(n), ExtendedState(p, req, item, n, n))
  {
    var states := seq(n + 1, k requires 0 <= k <= n => ExtendedState(p, req, item, k, n));
    forall k | 0 <= k < n ensures Reaches(lib, states[k], Answerings(n)[k], states[k + 1]) {
      OneExtends(lib, p, req, item, k, n);
    }
    LinksReach(lib, states, Answerings(n));
    NoneExtended(p, req, item, n);
  }

  lemma NoneExtended(p: Proxy, req: Request, item: Ref, n: nat)
    requires item < |p.heap|
    ensures ExtendedState(p, req, item, 0, n) == AskedState(p, req, item, n)
  {
    assert p.heap[item := p.heap[item]] == p.heap;
  }

  lemma AllRevalidate(lib: Lib, p: Proxy, req: Request, item: Ref, n: nat)
    requires Expired(p, req, item) && forall w :: 0 <= w < n ==> w !in p.tasks
    ensures Reaches(lib, p, Revalidations(req, n), ExtendedState(p, req, item, n, n))
  {
    AllAsk(lib, p, req, item, n);
    AllExtend(lib, p, req, item, n);
    ReachesThen(lib, p, Asking(req, n), AskedState(p, req, item, n), Answering(n), ExtendedState(p, req, item, n, n));
  }

  lemma RunRevalidations(lib: Lib, p: Proxy, req: Request, item: Ref, n: nat)
    requires Expired(p, req, item) && forall w :: 0 <= w < n ==> w !in p.tasks
    ensures Run(lib, p, Revalidations(req, n)) == ExtendedState(p, req, item, n, n)
  {
    AllRevalidate(lib, p, req, item, n);
    RunReaches(lib, p, Revalidations(req, n), ExtendedState(p, req, item, n, n));
  }

  lemma ExtendedHeap(p: Proxy, req: Request, item: Ref, n: nat)
    requires item < |p.heap| && Seconds(p.heap[item].lifetime) != -1
    ensures ExtendedState(p, req, item, n, n).heap
            == p.heap[item := p.heap[item].(expire := p.heap[item].expire + n * p.heap[item].lifetime)]
  {
    ExpiryAfter(p.heap[item], n);
  }

  /** From any state whose entry has expired, and for any number of idle workers: if all find it stale before the
      first is answered, each adds a lifetime of its own. Restarting the lifetime, as the comment on `validated` says,
      would give the entry a single one from now. */
  lemma OverlapMultipliesLifetime(lib: Lib, p: Proxy, req: Request, item: Ref, n: nat)
    requires Expired(p, req, item) && Timed(p.heap[item]) && forall w :: 0 <= w < n ==> w !in p.tasks
    ensures var q, e := Run(lib, p, Revalidations(req, n)), p.heap[item];
            && q.now == p.now && q.cache == p.cache
            && q.heap == p.heap[item := e.(expire := e.expire + n * e.lifetime)]
            && AsCommented(e, p.now).expire == p.now + e.lifetime
  {
    RunRevalidations(lib, p, req, item, n);
    ExtendedHeap(p, req, item, n);
  }

  // ---- The bound is met ----

  /** A first request fills the empty cache, and time passes. */
  function Filling(uri: Uri, response: Http.Response, body: string, elapsed: nat): seq<Event> {
    [Begin(0, Get(uri))] + [Act(0)] + [FetchAnswer(0, response, body, |body|)] + [Act(0)]
    + ([Act(0)] + [Tick(elapsed)])
  }

  lemma Misses(lib: Lib, q: Proxy, k: Worker, req: Request, start: int)
    requires k in q.tasks && q.tasks[k] == Lookup(req, start) && MakeKey(req.uri) !in q.cache
    ensures Reaches(lib, q, [Act(k)], q.(tasks := q.tasks[k := Fetch(req, start)]))
  {
    OneReaches(lib, q, Act(k), q.(tasks := q.tasks[k := Fetch(req, start)]));
  }

  lemma IsAnswered(lib: Lib, q: Proxy, k: Worker, req: Request, start: int, response: Http.Response, body: string)
    requires k in q.tasks && q.tasks[k] == Fetch(req, start) && MayStore(req, response)
    ensures Reaches(lib, q, [FetchAnswer(k, response, body, |body|)],
                    q.(tasks := q.tasks[k := Store(req, start, Received(q.now, response, body))]))
  {
    OneReaches(lib, q, FetchAnswer(k, response, body, |body|),
               q.(tasks := q.tasks[k := Store(req, start, Received(q.now, response, body))]));
  }

  lemma Fills(lib: Lib, q: Proxy, k: Worker, req: Request, start: int, got: Received)
    requires k in q.tasks && q.tasks[k] == Store(req, start, got)
    requires Build(lib, got.response, got.body, q.now).Ok?
    ensures Reaches(lib, q, [Act(k)],
                    q.(tasks := q.tasks[k := Deliver(req, start, got)],
                       heap := q.heap + [Copied(Build(lib, got.response, got.body, q.now).value)],
                       cache := q.cache[MakeKey(req.uri) := |q.heap|]))
  {
    OneReaches(lib, q, Act(k), q.(tasks := q.tasks[k := Deliver(req, start, got)],
                                  heap := q.heap + [Copied(Build(lib, got.response, got.body, q.now).value)],
                                  cache := q.cache[MakeKey(req.uri) := |q.heap|]));
  }

  lemma Delivers(lib: Lib, q: Proxy, k: Worker, req: Request, start: int, got: Received)
    requires k in q.tasks && q.tasks[k] == Deliver(req, start, got)
    ensures var reply := Reply(req, start, q.now, FromOrigin, got.response.status, got.body);
            Reaches(lib, q, [Act(k)], q.(tasks := q.tasks - {k}, replies := q.replies + [reply]))
  {
    var reply := Reply(req, start, q.now, FromOrigin, got.response.status, got.body);
    OneReaches(lib, q, Act(k), q.(tasks := q.tasks - {k}, replies := q.replies + [reply]));
  }

  /** The state once the entry has been made and its first reply given, and it is expiring just now. */
  function FilledState(now: int, uri: Uri, response: Http.Response, body: string, e: Entry): Proxy {
    Proxy(e.expire, [e], map[MakeKey(uri) := 0], map[], [Reply(Get(uri), now, now, FromOrigin, response.status, body)])
  }

  lemma Fetches(lib: Lib, now: int, uri: Uri, response: Http.Response, body: string)
    requires MayStore(Get(uri), response)
    ensures Reaches(lib, Initial(now), [Begin(0, Get(uri))] + [Act(0)] + [FetchAnswer(0, response, body, |body|)],
                    Initial(now).(tasks := map[0 := Store(Get(uri), now, Received(now, response, body))]))
  {
    var p, req := Initial(now), Get(uri);
    var p1, p2 := p.(tasks := map[0 := Lookup(req, now)]), p.(tasks := map[0 := Fetch(req, now)]);
    var p3 := p.(tasks := map[0 := Store(req, now, Received(now, response, body))]);
    Begins(lib, p, 0, req);
    Misses(lib, p1, 0, req, now);
    assert p1.(tasks := p1.tasks[0 := Fetch(req, now)]) == p2;
    IsAnswered(lib, p2, 0, req, now, response, body);
    assert p2.(tasks := p2.tasks[0 := Store(req, now, Received(now, response, body))]) == p3;
    ReachesThen(lib, p, [Begin(0, req)], p1, [Act(0)], p2);
    ReachesThen(lib, p, [Begin(0, req)] + [Act(0)], p2, [FetchAnswer(0, response, body, |body|)], p3);
  }

  lemma FillsEmpty(lib: Lib, now: int, req: Request, got: Received, e: Entry)
    requires Build(lib, got.response, got.body, now).Ok? && e == Copied(Build(lib, got.response, got.body, now).value)
    ensures Reaches(lib, Initial(now).(tasks := map[0 := Store(req, now, got)]), [Act(0)],
                    Proxy(now, [e], map[MakeKey(req.uri) := 0], map[0 := Deliver(req, now, got)], []))
  {
    var p := Initial(now).(tasks := map[0 := Store(req, now, got)]);
    Fills(lib, p, 0, req, now, got);
    assert p.tasks[0 := Deliver(req, now, got)] == map[0 := Deliver(req, now, got)];
    assert p.heap + [e] == [e] && p.cache[MakeKey(req.uri) := 0] == map[MakeKey(req.uri) := 0];
  }

  lemma DeliversLast(lib: Lib, now: int, uri: Uri, got: Received, e: Entry)
    requires e.expire >= now
    ensures Reaches(lib, Proxy(now, [e], map[MakeKey(uri) := 0], map[0 := Deliver(Get(uri), now, got)], []),
                    [Act(0)] + [Tick(e.expire - now)], FilledState(now, uri, got.response, got.body, e))
  {
    var p := Proxy(now, [e], map[MakeKey(uri) := 0], map[0 := Deliver(Get(uri), now, got)], []);
    var last := FilledState(now, uri, got.response, got.body, e);
    Delivers(lib, p, 0, Get(uri), now, got);
    assert p.tasks - {0} == map[] && p.replies + last.replies == last.replies;
    OneReaches(lib, last.(now := now), Tick(e.expire - now), last);
    ReachesThen(lib, p, [Act(0)], last.(now := now), [Tick(e.expire - now)], last);
  }

  lemma FilledCache(lib: Lib, now: int, uri: Uri, got: Received, e: Entry)
    requires got.at == now && e.expire >= now && MayStore(Get(uri), got.response)
    requires Build(lib, got.response, got.body, now).Ok? && e == Copied(Build(lib, got.response, got.body, now).value)
    ensures Reaches(lib, Initial(now), Filling(uri, got.response, got.body, e.expire - now),
                    FilledState(now, uri, got.response, got.body, e))
  {
    var fetching := [Begin(0, Get(uri))] + [Act(0)] + [FetchAnswer(0, got.response, got.body, |got.body|)];
    var p3 := Initial(now).(tasks := map[0 := Store(Get(uri), now, got)]);
    var p4 := Proxy(now, [e], map[MakeKey(uri) := 0], map[0 := Deliver(Get(uri), now, got)], []);
    Fetches(lib, now, uri, got.response, got.body);
    FillsEmpty(lib, now, Get(uri), got, e);
    ReachesThen(lib, Initial(now), fetching, p3, [Act(0)], p4);
    DeliversLast(lib, now, uri, got, e);
    ReachesThen(lib, Initial(now), fetching + [Act(0)], p4, [Act(0)] + [Tick(e.expire - now)],
                FilledState(now, uri, got.response, got.body, e));
  }

  lemma {:induction false} FlattenOnPool(pieces: seq<seq<Event>>, n: nat)
    requires forall k :: 0 <= k < |pieces| ==> OnPool(pieces[k], n)
    ensures OnPool(Flatten(pieces), n)
  {
    if pieces != [] {
      FlattenOnPool(pieces[..|pieces| - 1], n);
    }
  }

  lemma RevalidationsOnPool(req: Request, n: nat)
    ensures OnPool(Revalidations(req, n), n)
  {
    FlattenOnPool(Askings(req, n), n);
    FlattenOnPool(Answerings(n), n);
  }

  /** The run stays on a pool of n threads, and the expiry of its entry is n lifetimes after the entry's credit, which
      is the present: no later expiry is possible on such a pool. */
  ghost predicate MeetsBound(lib: Lib, now: int, events: seq<Event>, n: nat) {
    var world := Story(lib, now, events);
    && OnPool(events, n) && world.proxy == Run(lib, Initial(now), events)
    && |world.proxy.heap| == |world.trail| == 1 && Timed(world.proxy.heap[0])
    && world.trail[0].credit == world.proxy.now
    && world.proxy.heap[0].expire == world.trail[0].credit + world.proxy.heap[0].lifetime * n
  }

  lemma MetBound(lib: Lib, now: int, events: seq<Event>, n: nat, e: Entry)
    requires OnPool(events, n) && n > 0 && Timed(e)
    requires var p := Run(lib, Initial(now), events);
             p.heap == [e.(expire := p.now + n * e.lifetime)] && (!e.mustRevalidate ==> e.responseTime <= p.now)
    ensures MeetsBound(lib, now, events, n)
  {
    StoryIsTheRun(lib, now, events);
    CacheInvariant.StoryIsTracked(lib, now, events);
    ExpiryWithinPool(lib, now, events, n, 0);
    CreditIsPast(lib, now, events, 0);
  }

  lemma FilledReaches(lib: Lib, now: int, filling: seq<Event>, p: Proxy, req: Request, n: nat)
    requires Reaches(lib, Initial(now), filling, p) && Expired(p, req, 0) && p.tasks == map[]
    ensures Run(lib, Initial(now), filling + Revalidations(req, n)) == ExtendedState(p, req, 0, n, n)
  {
    AllRevalidate(lib, p, req, 0, n);
    ReachesThen(lib, Initial(now), filling, p, Revalidations(req, n), ExtendedState(p, req, 0, n, n));
    RunReaches(lib, Initial(now), filling + Revalidations(req, n), ExtendedState(p, req, 0, n, n));
  }

  lemma FilledMeetsBound(lib: Lib, now: int, filling: seq<Event>, events: seq<Event>, p: Proxy, req: Request, n: nat)
    requires n > 0 && OnPool(filling, n) && events == filling + Revalidations(req, n) && |p.heap| == 1
    requires Run(lib, Initial(now), events) == ExtendedState(p, req, 0, n, n)
    requires var e := p.heap[0]; Timed(e) && e.expire == p.now && (!e.mustRevalidate ==> e.responseTime <= p.now)
    ensures MeetsBound(lib, now, events, n)
  {
    ExtendedHeap(p, req, 0, n);
    RevalidationsOnPool(req, n);
    MetBound(lib, now, events, n, p.heap[0]);
  }

  lemma FilledIsExpired(now: int, uri: Uri, response: Http.Response, body: string, e: Entry)
    requires Timed(e) && ItemValidator(e).Some?
    ensures Expired(FilledState(now, uri, response, body, e), Get(uri), 0)
  {
  }

  lemma BoundIsMetFrom(lib: Lib, now: int, uri: Uri, response: Http.Response, body: string, e: Entry, n: nat)
    requires n > 0 && e.expire >= now && Timed(e) && (!e.mustRevalidate ==> e.responseTime <= e.expire)
    requires var p := FilledState(now, uri, response, body, e);
             && Reaches(lib, Initial(now), Filling(uri, response, body, e.expire - now), p) && Expired(p, Get(uri), 0)
    ensures MeetsBound(lib, now, Filling(uri, response, body, e.expire - now) + Revalidations(Get(uri), n), n)
  {
    var filling, p := Filling(uri, response, body, e.expire - now), FilledState(now, uri, response, body, e);
    FilledReaches(lib, now, filling, p, Get(uri), n);
    FilledMeetsBound(lib, now, filling, filling + Revalidations(Get(uri), n), p, Get(uri), n);
  }

  /** The filled cache is what the revalidations start from. */
  lemma FilledIsReady(lib: Lib, now: int, uri: Uri, got: Received, e: Entry)
    requires got.at == now && e.expire >= now && MayStore(Get(uri), got.response)
    requires Build(lib, got.response, got.body, now).Ok? && e == Copied(Build(lib, got.response, got.body, now).value)
    requires Timed(e) && ItemValidator(e).Some?
    ensures var p := FilledState(now, uri, got.response, got.body, e);
            && Reaches(lib, Initial(now), Filling(uri, got.response, got.body, e.expire - now), p)
            && Expired(p, Get(uri), 0)
  {
    FilledCache(lib, now, uri, got, e);
    FilledIsExpired(now, uri, got.response, got.body, e);
  }

  /** For every size of the pool the bound on an entry's expiry is met by a run from the empty cache: the entry is
      filled in, expires, and is found stale by all workers before the first of them is answered. From then on it is a
      hit until n lifetimes after the instant at which it was last found stale. */
  lemma BoundIsMet(lib: Lib, now: int, uri: Uri, response: Http.Response, body: string, e: Entry, n: nat)
    requires n > 0 && MayStore(Get(uri), response)
    requires Build(lib, response, body, now).Ok? && e == Copied(Build(lib, response, body, now).value)
    requires Timed(e) && e.expire >= now && ItemValidator(e).Some?
    ensures MeetsBound(lib, now, Filling(uri, response, body, e.expire - now) + Revalidations(Get(uri), n), n)
  {
    FilledIsReady(lib, now, uri, Received(now, response, body), e);
    BoundIsMetFrom(lib, now, uri, response, body, e, n);
  }

  /** Such an entry is still a hit when the comment's rule, applied at the instant of those very 304s, would have let
      it expire. */
  lemma CommentIsExceeded(e: Entry, now: int, n: nat)
    requires Timed(e) && e.lifetime > 0 && n >= 2 && e.expire == now + e.lifetime * n
    ensures IsValid(e, now + e.lifetime) && !IsValid(AsCommented(e, now), now + e.lifetime)
  {
    MulMono(e.lifetime, 2, n);
  }
}
