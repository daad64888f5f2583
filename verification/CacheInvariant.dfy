/** What every reachable state of the proxy keeps, under all interleavings, evictions and failures. */
module CacheInvariant {
  import opened Freshness
  import opened CacheKey
  import opened Proxy
  import Http
  import CacheControl

  /** An entry is the stored copy of one storable 200 response to a GET, apart from its expiry. */
  ghost predicate EntryOk(lib: Lib, e: Entry, trail: Trail) {
    && MayStore(Get(trail.uri), trail.got.response)
    && Build(lib, trail.got.response, trail.got.body, trail.built).Ok?
    && e == Copied(Build(lib, trail.got.response, trail.got.body, trail.built).value).(expire := e.expire)
  }

  ghost predicate ItemOk(world: World, req: Request, item: Ref) {
    && req.verb == "GET"
    && item < |world.trail| == |world.proxy.heap|
    && MakeKey(world.trail[item].uri) == MakeKey(req.uri)
  }

  /** Which entries can be replayed as fresh, and which can be revalidated. */
  ghost predicate WarrantOk(e: Entry, warrant: Warrant) {
    match warrant
    case Fresh => !e.noCache && Seconds(e.lifetime) != -1
    case Confirmed(_) => ItemValidator(e).Some?
  }

  ghost predicate TaskOk(world: World, task: Task) {
    var now := world.proxy.now;
    && task.start <= now
    && match task
       case Lookup(req, start) => req.verb == "GET"
       case Check(req, start, item) => ItemOk(world, req, item)
       case Ping(req, start, item, checked) =>
         ItemOk(world, req, item) && start <= checked <= now && ItemValidator(world.proxy.heap[item]).Some?
       case Extend(req, start, item, checked, confirmed) =>
         ItemOk(world, req, item) && start <= checked <= confirmed <= now && ItemValidator(world.proxy.heap[item]).Some?
       case Replay(req, start, item, checked, warrant) =>
         && ItemOk(world, req, item) && start <= checked <= now && WarrantOk(world.proxy.heap[item], warrant)
         && (warrant.Confirmed? ==> checked <= warrant.at <= now)
       case Fetch(req, start) => true
       case Store(req, start, got) => MayStore(req, got.response) && start <= got.at <= now
       case Deliver(req, start, got) => start <= got.at <= now
  }

  ghost predicate ReplyOk(world: World, reply: Reply) {
    && reply.start <= reply.at <= world.proxy.now
    && match reply.source
       case FromOrigin => true
       case FromCache(item, checked, warrant) =>
         && ItemOk(world, reply.req, item) && reply.start <= checked <= reply.at
         && reply.status == world.proxy.heap[item].response.status && reply.body == world.proxy.heap[item].body
         && WarrantOk(world.proxy.heap[item], warrant)
         && (warrant.Confirmed? ==> checked <= warrant.at <= reply.at)
  }

  ghost predicate Tracked(lib: Lib, world: World) {
    && HeapOk(lib, world)
    && MapOk(world)
    && (forall w :: w in world.proxy.tasks ==> TaskOk(world, world.proxy.tasks[w]))
    && (forall i :: 0 <= i < |world.proxy.replies| ==> ReplyOk(world, world.proxy.replies[i]))
  }

  /** What survives of a world from one step to the next, for tasks and replies that did not take part in it. */
  ghost predicate Grows(a: World, b: World) {
    && a.proxy.now <= b.proxy.now
    && |a.proxy.heap| <= |b.proxy.heap| && |a.trail| <= |b.trail|
    && |a.trail| == |a.proxy.heap| && |b.trail| == |b.proxy.heap|
    && forall r :: 0 <= r < |a.proxy.heap| ==>
         && b.proxy.heap[r] == a.proxy.heap[r].(expire := b.proxy.heap[r].expire)
         && b.trail[r].uri == a.trail[r].uri && b.trail[r].got == a.trail[r].got && b.trail[r].built == a.trail[r].built
         && b.trail[r].overlap >= a.trail[r].overlap
  }

  datatype Kind = Checks | Extends | Stores | Quiet

  function KindOf(world: World, e: Event): Kind {
    if e.Act? && e.w in world.proxy.tasks then
      match world.proxy.tasks[e.w]
      case Check(_, _, _) => Checks
      case Extend(_, _, _, _, _) => Extends
      case Store(_, _, _) => Stores
      case _ => Quiet
    else Quiet
  }

  /** The three kinds of event, by what they do to the heap and its history. */
  lemma QuietStep(lib: Lib, world: World, e: Event)
    requires KindOf(world, e).Quiet?
    ensures var next := Next(lib, world, e);
            next.proxy.heap == world.proxy.heap && next.trail == world.trail
            && next.proxy.cache.Keys <= world.proxy.cache.Keys
            && forall k :: k in next.proxy.cache ==> next.proxy.cache[k] == world.proxy.cache[k]
  {
  }

  lemma CheckStep(lib: Lib, world: World, e: Event)
    requires |world.trail| == |world.proxy.heap| && KindOf(world, e).Checks?
    ensures var next := Next(lib, world, e);
            && next.proxy.heap == world.proxy.heap && next.proxy.cache == world.proxy.cache
            && |next.trail| == |world.trail|
            && forall r :: 0 <= r < |world.trail| ==> next.trail[r] == world.trail[r].(overlap := next.trail[r].overlap)
  {
  }

  lemma ExtendStep(lib: Lib, world: World, e: Event)
    requires |world.trail| == |world.proxy.heap| && KindOf(world, e).Extends?
    ensures var next := Next(lib, world, e);
            next.proxy.cache == world.proxy.cache && Grows(world, next) && |next.trail| == |world.trail|
  {
  }

  /** Exactly what an extension does. */
  lemma ExtendEffect(lib: Lib, world: World, w: Worker)
    requires |world.trail| == |world.proxy.heap| && w in world.proxy.tasks && world.proxy.tasks[w].Extend?
    requires world.proxy.tasks[w].item < |world.trail|
    ensures var t, next := world.proxy.tasks[w], Next(lib, world, Act(w));
            var was := world.trail[t.item];
            && next.proxy.now == world.proxy.now
            && next.proxy.heap == world.proxy.heap[t.item := Validated(world.proxy.heap[t.item])]
            && next.trail == world.trail[t.item := was.(credit := Max(was.credit, t.checked),
                                                        held := Max(was.held, t.confirmed), extended := true)]
  {
  }

  lemma StoreStep(lib: Lib, world: World, e: Event)
    requires |world.trail| == |world.proxy.heap| && KindOf(world, e).Stores?
    ensures var next, t, n := Next(lib, world, e), world.proxy.tasks[e.w], |world.trail|;
            && |next.trail| == |next.proxy.heap|
            && (if Build(lib, t.got.response, t.got.body, world.proxy.now).Ok? then
                  && next.proxy.heap
                     == world.proxy.heap + [Copied(Build(lib, t.got.response, t.got.body, world.proxy.now).value)]
                  && |next.trail| == n + 1
                  && (forall r :: 0 <= r < n ==>
                        next.trail[r] == world.trail[r] && next.proxy.heap[r] == world.proxy.heap[r])
                  && next.trail[n].uri == t.req.uri && next.trail[n].got == t.got
                  && next.trail[n].built == world.proxy.now
                  && next.proxy.cache == world.proxy.cache[MakeKey(t.req.uri) := n]
                else
                  && next.proxy.heap == world.proxy.heap && next.trail == world.trail
                  && next.proxy.cache == world.proxy.cache)
  {
  }

  lemma StepGrows(lib: Lib, world: World, e: Event)
    requires |world.trail| == |world.proxy.heap|
    ensures Grows(world, Next(lib, world, e))
  {
    match KindOf(world, e)
    case Quiet => QuietStep(lib, world, e);
    case Checks => CheckStep(lib, world, e);
    case Extends => ExtendStep(lib, world, e);
    case Stores => StoreStep(lib, world, e);
  }

  lemma GrowsKeepsTask(a: World, b: World, task: Task)
    requires Grows(a, b) && TaskOk(a, task)
    ensures TaskOk(b, task)
  {
  }

  lemma GrowsKeepsReply(a: World, b: World, reply: Reply)
    requires Grows(a, b) && ReplyOk(a, reply)
    ensures ReplyOk(b, reply)
  {
  }

  lemma GrowsKeepsEntry(lib: Lib, a: World, b: World, r: Ref)
    requires Grows(a, b) && r < |a.trail| && EntryOk(lib, a.proxy.heap[r], a.trail[r])
    ensures EntryOk(lib, b.proxy.heap[r], b.trail[r])
  {
  }

  lemma CheckerIsOk(lib: Lib, world: World, w: Worker)
    requires |world.trail| == |world.proxy.heap| && w in world.proxy.tasks && world.proxy.tasks[w].Check?
    requires TaskOk(world, world.proxy.tasks[w])
    ensures var next := Next(lib, world, Act(w)); w in next.proxy.tasks && TaskOk(next, next.proxy.tasks[w])
  {
  }

  lemma ExtenderIsOk(lib: Lib, world: World, w: Worker)
    requires |world.trail| == |world.proxy.heap| && w in world.proxy.tasks && world.proxy.tasks[w].Extend?
    requires TaskOk(world, world.proxy.tasks[w])
    ensures var next := Next(lib, world, Act(w)); w in next.proxy.tasks && TaskOk(next, next.proxy.tasks[w])
  {
    ExtendStep(lib, world, Act(w));
  }

  lemma OtherActorIsOk(lib: Lib, world: World, w: Worker)
    requires |world.trail| == |world.proxy.heap| && MapOk(world) && w in world.proxy.tasks
    requires !world.proxy.tasks[w].Check? && !world.proxy.tasks[w].Extend? && TaskOk(world, world.proxy.tasks[w])
    ensures var next := Next(lib, world, Act(w)); w in next.proxy.tasks ==> TaskOk(next, next.proxy.tasks[w])
  {
  }

  /** The worker that took the step, if it is still at work, is in a proper position. */
  lemma ActorIsOk(lib: Lib, world: World, w: Worker)
    requires Tracked(lib, world) && w in world.proxy.tasks
    ensures var next := Next(lib, world, Act(w)); w in next.proxy.tasks ==> TaskOk(next, next.proxy.tasks[w])
  {
    match world.proxy.tasks[w]
    case Check(_, _, _) => CheckerIsOk(lib, world, w);
    case Extend(_, _, _, _, _) => ExtenderIsOk(lib, world, w);
    case _ => OtherActorIsOk(lib, world, w);
  }

  lemma RepliesGrow(lib: Lib, p: Proxy, e: Event)
    ensures var next := Step(lib, p, e);
            && |p.replies| <= |next.replies| <= |p.replies| + 1
            && (forall i :: 0 <= i < |p.replies| ==> next.replies[i] == p.replies[i])
            && (|next.replies| > |p.replies| ==> e.Act? && e.w in p.tasks)
  {
  }

  lemma BystandersStay(lib: Lib, p: Proxy, e: Event, w: Worker)
    requires w in Step(lib, p, e).tasks
    requires e != Act(w) && !((e.PingAnswer? || e.FetchAnswer? || e.Begin?) && e.w == w)
    ensures w in p.tasks && p.tasks[w] == Step(lib, p, e).tasks[w]
  {
  }

  // Exactly what the steps of a worker's own do.

  lemma CheckedTask(lib: Lib, p: Proxy, w: Worker)
    requires w in p.tasks && p.tasks[w].Check? && p.tasks[w].item < |p.heap|
    ensures var t, e, next := p.tasks[w], p.heap[p.tasks[w].item], Step(lib, p, Act(w));
            && w in next.tasks
            && next.tasks[w]
               == if IsValid(e, p.now) then Replay(t.req, t.start, t.item, p.now, Fresh)
                  else if ItemValidator(e).Some? then Ping(t.req, t.start, t.item, p.now)
                  else Fetch(t.req, t.start)
  {
  }

  /** The reply a replaying worker gives. */
  lemma ReplayStep(lib: Lib, p: Proxy, w: Worker)
    requires w in p.tasks && p.tasks[w].Replay? && p.tasks[w].item < |p.heap|
    ensures var t, next := p.tasks[w], Step(lib, p, Act(w));
            var e := p.heap[t.item];
            && next.heap == p.heap && next.now == p.now
            && next.replies == p.replies
               + [Reply(t.req, t.start, p.now, FromCache(t.item, t.checked, t.warrant), e.response.status, e.body)]
  {
  }

  lemma DeliverStep(lib: Lib, p: Proxy, w: Worker)
    requires w in p.tasks && p.tasks[w].Deliver?
    ensures var t, next := p.tasks[w], Step(lib, p, Act(w));
            && next.heap == p.heap && next.now == p.now
            && next.replies
               == p.replies + [Reply(t.req, t.start, p.now, FromOrigin, t.got.response.status, t.got.body)]
  {
  }

  lemma OnlyTheseAnswer(lib: Lib, p: Proxy, w: Worker)
    requires w in p.tasks && |Step(lib, p, Act(w)).replies| > |p.replies|
    ensures p.tasks[w].Replay? || p.tasks[w].Deliver?
  {
  }

  lemma NewReplyIsOk(lib: Lib, world: World, w: Worker)
    requires Tracked(lib, world) && w in world.proxy.tasks
    ensures var next, n := Next(lib, world, Act(w)), |world.proxy.replies|;
            |next.proxy.replies| > n ==> ReplyOk(next, next.proxy.replies[n])
  {
    var task := world.proxy.tasks[w];
    assert TaskOk(world, task);
    if task.Replay? {
      QuietStep(lib, world, Act(w));
      ReplayStep(lib, world.proxy, w);
    } else if task.Deliver? {
      DeliverStep(lib, world.proxy, w);
    } else if |Next(lib, world, Act(w)).proxy.replies| > |world.proxy.replies| {
      OnlyTheseAnswer(lib, world.proxy, w);
    }
  }

  lemma AnsweredIsOk(lib: Lib, world: World, e: Event)
    requires Tracked(lib, world) && (e.PingAnswer? || e.FetchAnswer? || e.Begin?)
    ensures var next := Next(lib, world, e); e.w in next.proxy.tasks ==> TaskOk(next, next.proxy.tasks[e.w])
  {
    assert e.w in world.proxy.tasks ==> TaskOk(world, world.proxy.tasks[e.w]);
  }

  ghost predicate HeapOk(lib: Lib, world: World) {
    && |world.trail| == |world.proxy.heap|
    && forall r :: 0 <= r < |world.trail| ==>
         EntryOk(lib, world.proxy.heap[r], world.trail[r]) && world.trail[r].built <= world.proxy.now
  }

  ghost predicate MapOk(world: World) {
    forall k :: k in world.proxy.cache ==>
      world.proxy.cache[k] < |world.trail| && MakeKey(world.trail[world.proxy.cache[k]].uri) == k
  }

  lemma HeapStaysOk(lib: Lib, world: World, e: Event)
    requires Tracked(lib, world)
    ensures HeapOk(lib, Next(lib, world, e))
  {
    StepGrows(lib, world, e);
    var next := Next(lib, world, e);
    forall r | 0 <= r < |world.trail| ensures EntryOk(lib, next.proxy.heap[r], next.trail[r]) {
      GrowsKeepsEntry(lib, world, next, r);
    }
    match KindOf(world, e)
    case Quiet => QuietStep(lib, world, e);
    case Checks => CheckStep(lib, world, e);
    case Extends => ExtendStep(lib, world, e);
    case Stores =>
      StoreStep(lib, world, e);
      assert TaskOk(world, world.proxy.tasks[e.w]);
  }

  lemma MapCarriesOver(a: World, b: World)
    requires MapOk(a) && Grows(a, b)
    requires forall k :: k in b.proxy.cache ==> k in a.proxy.cache && b.proxy.cache[k] == a.proxy.cache[k]
    ensures MapOk(b)
  {
  }

  lemma StoreKeepsMap(lib: Lib, world: World, e: Event)
    requires |world.trail| == |world.proxy.heap| && MapOk(world) && KindOf(world, e).Stores?
    ensures MapOk(Next(lib, world, e))
  {
    StoreStep(lib, world, e);
  }

  lemma MapStaysOk(lib: Lib, world: World, e: Event)
    requires Tracked(lib, world)
    ensures MapOk(Next(lib, world, e))
  {
    if KindOf(world, e).Stores? {
      StoreKeepsMap(lib, world, e);
    } else {
      StepGrows(lib, world, e);
      CacheShrinks(lib, world, e);
      MapCarriesOver(world, Next(lib, world, e));
    }
  }

  lemma CacheShrinks(lib: Lib, world: World, e: Event)
    requires |world.trail| == |world.proxy.heap| && !KindOf(world, e).Stores?
    ensures var cache := Next(lib, world, e).proxy.cache;
            forall k :: k in cache ==> k in world.proxy.cache && cache[k] == world.proxy.cache[k]
  {
    match KindOf(world, e)
    case Quiet => QuietStep(lib, world, e);
    case Checks => CheckStep(lib, world, e);
    case Extends => ExtendStep(lib, world, e);
  }

  lemma TasksStayOk(lib: Lib, world: World, e: Event, w: Worker)
    requires Tracked(lib, world) && w in Next(lib, world, e).proxy.tasks
    ensures TaskOk(Next(lib, world, e), Next(lib, world, e).proxy.tasks[w])
  {
    if (e.PingAnswer? || e.FetchAnswer? || e.Begin?) && e.w == w {
      AnsweredIsOk(lib, world, e);
    } else if e == Act(w) {
      if w in world.proxy.tasks {
        ActorIsOk(lib, world, w);
      }
    } else {
      StepGrows(lib, world, e);
      BystandersStay(lib, world.proxy, e, w);
      GrowsKeepsTask(world, Next(lib, world, e), world.proxy.tasks[w]);
    }
  }

  /** Replies are only ever appended, one at a time. */
  ghost predicate Appends(a: Proxy, b: Proxy) {
    && |a.replies| <= |b.replies| <= |a.replies| + 1
    && forall i :: 0 <= i < |a.replies| ==> b.replies[i] == a.replies[i]
  }

  lemma RepliesCarryOver(a: World, b: World)
    requires Grows(a, b) && Appends(a.proxy, b.proxy)
    requires forall i :: 0 <= i < |a.proxy.replies| ==> ReplyOk(a, a.proxy.replies[i])
    requires |b.proxy.replies| > |a.proxy.replies| ==> ReplyOk(b, b.proxy.replies[|a.proxy.replies|])
    ensures forall i :: 0 <= i < |b.proxy.replies| ==> ReplyOk(b, b.proxy.replies[i])
  {
    forall i | 0 <= i < |a.proxy.replies| ensures ReplyOk(b, a.proxy.replies[i]) {
      GrowsKeepsReply(a, b, a.proxy.replies[i]);
    }
  }

  lemma StepAppends(lib: Lib, world: World, e: Event)
    ensures var next := Next(lib, world, e).proxy;
            && Appends(world.proxy, next)
            && (|next.replies| > |world.proxy.replies| ==> e.Act? && e == Act(e.w) && e.w in world.proxy.tasks)
  {
    RepliesGrow(lib, world.proxy, e);
  }

  lemma RepliesStayOk(lib: Lib, world: World, e: Event)
    requires Tracked(lib, world)
    ensures var next := Next(lib, world, e);
            forall i :: 0 <= i < |next.proxy.replies| ==> ReplyOk(next, next.proxy.replies[i])
  {
    StepAppends(lib, world, e);
    if |Next(lib, world, e).proxy.replies| > |world.proxy.replies| {
      NewReplyIsOk(lib, world, e.w);
    }
    StepGrows(lib, world, e);
    RepliesCarryOver(world, Next(lib, world, e));
  }

  lemma AllTasksStayOk(lib: Lib, world: World, e: Event)
    requires Tracked(lib, world)
    ensures var next := Next(lib, world, e); forall w :: w in next.proxy.tasks ==> TaskOk(next, next.proxy.tasks[w])
  {
    forall w | w in Next(lib, world, e).proxy.tasks
      ensures TaskOk(Next(lib, world, e), Next(lib, world, e).proxy.tasks[w])
    {
      TasksStayOk(lib, world, e, w);
    }
  }

  lemma StepStaysTracked(lib: Lib, world: World, e: Event)
    requires Tracked(lib, world)
    ensures Tracked(lib, Next(lib, world, e))
  {
    HeapStaysOk(lib, world, e);
    MapStaysOk(lib, world, e);
    AllTasksStayOk(lib, world, e);
    RepliesStayOk(lib, world, e);
  }

  lemma {:induction false} StoryIsTracked(lib: Lib, now: int, events: seq<Event>)
    ensures Tracked(lib, Story(lib, now, events))
  {
    if events != [] {
      StoryIsTracked(lib, now, events[..|events| - 1]);
      StepStaysTracked(lib, Story(lib, now, events[..|events| - 1]), events[|events| - 1]);
    }
  }

  // ---- The same, said of the events of a run ----

  /** Event number `i` of the run delivered `got` to a worker that was fetching `uri` with a GET. */
  ghost predicate Fetched(lib: Lib, now: int, events: seq<Event>, i: nat, uri: Uri, got: Received) {
    && i < |events| && events[i].FetchAnswer?
    && var p := Run(lib, Initial(now), events[..i]);
       var FetchAnswer(w, response, body, read) := events[i];
       && w in p.tasks && p.tasks[w].Fetch? && p.tasks[w].req == Get(uri)
       && got == Received(p.now, response, Read(body, read))
  }

  lemma FetchedEarlier(lib: Lib, now: int, events: seq<Event>, i: nat, uri: Uri, got: Received)
    requires |events| > 0 && Fetched(lib, now, events[..|events| - 1], i, uri, got)
    ensures Fetched(lib, now, events, i, uri, got)
  {
    assert events[..|events| - 1][..i] == events[..i];
  }

  ghost predicate ComesFromRun(lib: Lib, now: int, events: seq<Event>, uri: Uri, got: Received) {
    exists i :: Fetched(lib, now, events, i, uri, got)
  }

  lemma ComesFromLongerRun(lib: Lib, now: int, events: seq<Event>, uri: Uri, got: Received)
    requires |events| > 0 && ComesFromRun(lib, now, events[..|events| - 1], uri, got)
    ensures ComesFromRun(lib, now, events, uri, got)
  {
    var i :| Fetched(lib, now, events[..|events| - 1], i, uri, got);
    FetchedEarlier(lib, now, events, i, uri, got);
  }

  ghost predicate Sourced(lib: Lib, now: int, events: seq<Event>, world: World) {
    && (forall r :: 0 <= r < |world.trail| ==> ComesFromRun(lib, now, events, world.trail[r].uri, world.trail[r].got))
    && forall w :: w in world.proxy.tasks && world.proxy.tasks[w].Store? ==>
         ComesFromRun(lib, now, events, world.proxy.tasks[w].req.uri, world.proxy.tasks[w].got)
  }

  lemma {:induction false} StoryIsSourced(lib: Lib, now: int, events: seq<Event>)
    ensures Sourced(lib, now, events, Story(lib, now, events))
  {
    if events != [] {
      var earlier, e := events[..|events| - 1], events[|events| - 1];
      var before, after := Story(lib, now, earlier), Story(lib, now, events);
      StoryIsSourced(lib, now, earlier);
      StoryIsTracked(lib, now, earlier);
      StoresStaySourced(lib, now, events);
      StoryIsTheRun(lib, now, events);
      HistoryStaysSourced(lib, now, events);
    }
  }

  lemma HistoryStaysSourced(lib: Lib, now: int, events: seq<Event>)
    requires |events| > 0
    requires Sourced(lib, now, events[..|events| - 1], Story(lib, now, events[..|events| - 1]))
    requires Tracked(lib, Story(lib, now, events[..|events| - 1]))
    ensures var after := Story(lib, now, events);
            forall r :: 0 <= r < |after.trail| ==>
              ComesFromRun(lib, now, events, after.trail[r].uri, after.trail[r].got)
  {
    var earlier, e := events[..|events| - 1], events[|events| - 1];
    var before, after := Story(lib, now, earlier), Story(lib, now, events);
    StepGrows(lib, before, e);
    forall r | 0 <= r < |after.trail|
      ensures ComesFromRun(lib, now, events, after.trail[r].uri, after.trail[r].got)
    {
      if r < |before.trail| {
        ComesFromLongerRun(lib, now, events, before.trail[r].uri, before.trail[r].got);
      } else {
        NewEntryWasStored(lib, before, e, r);
        ComesFromLongerRun(lib, now, events, before.proxy.tasks[e.w].req.uri, before.proxy.tasks[e.w].got);
      }
    }
  }

  lemma NewEntryWasStored(lib: Lib, world: World, e: Event, r: Ref)
    requires Tracked(lib, world) && |world.trail| <= r < |Next(lib, world, e).trail|
    ensures e.Act? && e.w in world.proxy.tasks && world.proxy.tasks[e.w].Store?
    ensures var t := Next(lib, world, e).trail[r];
            t.uri == world.proxy.tasks[e.w].req.uri && t.got == world.proxy.tasks[e.w].got
  {
    match KindOf(world, e)
    case Quiet => QuietStep(lib, world, e);
    case Checks => CheckStep(lib, world, e);
    case Extends => ExtendStep(lib, world, e);
    case Stores => StoreStep(lib, world, e);
  }

  /** A response about to be stored was just delivered to a GET, or was about to be stored before. */
  lemma NewStore(lib: Lib, p: Proxy, e: Event, w: Worker)
    requires w in Step(lib, p, e).tasks && Step(lib, p, e).tasks[w].Store?
    requires !(w in p.tasks && p.tasks[w].Store?)
    ensures e.FetchAnswer? && e.w == w && w in p.tasks && p.tasks[w].Fetch?
    ensures var t := Step(lib, p, e).tasks[w];
            t.req == p.tasks[w].req == Get(t.req.uri) && t.got == Received(p.now, e.response, Read(e.body, e.read))
  {
  }

  lemma StoreActs(lib: Lib, p: Proxy, w: Worker)
    requires w in p.tasks && p.tasks[w].Store?
    ensures w in Step(lib, p, Act(w)).tasks ==> Step(lib, p, Act(w)).tasks[w].Deliver?
  {
  }

  lemma OldStore(lib: Lib, p: Proxy, e: Event, w: Worker)
    requires w in Step(lib, p, e).tasks && Step(lib, p, e).tasks[w].Store?
    requires w in p.tasks && p.tasks[w].Store?
    ensures Step(lib, p, e).tasks[w] == p.tasks[w]
  {
    if e == Act(w) {
      StoreActs(lib, p, w);
    } else if !((e.PingAnswer? || e.FetchAnswer? || e.Begin?) && e.w == w) {
      BystandersStay(lib, p, e, w);
    }
  }

  lemma FetchedNow(lib: Lib, now: int, events: seq<Event>, w: Worker)
    requires |events| > 0
    requires var p, e := Run(lib, Initial(now), events[..|events| - 1]), events[|events| - 1];
             && w in Step(lib, p, e).tasks && Step(lib, p, e).tasks[w].Store?
             && !(w in p.tasks && p.tasks[w].Store?)
    ensures var t := Run(lib, Initial(now), events).tasks[w]; ComesFromRun(lib, now, events, t.req.uri, t.got)
  {
    var n := |events| - 1;
    var p := Run(lib, Initial(now), events[..n]);
    NewStore(lib, p, events[n], w);
    var t := Step(lib, p, events[n]).tasks[w];
    assert Fetched(lib, now, events, n, t.req.uri, t.got);
  }

  lemma StoresStaySourced(lib: Lib, now: int, events: seq<Event>)
    requires |events| > 0
    requires Sourced(lib, now, events[..|events| - 1], Story(lib, now, events[..|events| - 1]))
    ensures var after := Run(lib, Initial(now), events);
            forall w :: w in after.tasks && after.tasks[w].Store? ==>
              ComesFromRun(lib, now, events, after.tasks[w].req.uri, after.tasks[w].got)
  {
    var earlier, e := events[..|events| - 1], events[|events| - 1];
    StoryIsTheRun(lib, now, earlier);
    var before := Run(lib, Initial(now), earlier);
    var after := Step(lib, before, e);
    forall w | w in after.tasks && after.tasks[w].Store?
      ensures ComesFromRun(lib, now, events, after.tasks[w].req.uri, after.tasks[w].got)
    {
      if w in before.tasks && before.tasks[w].Store? {
        OldStore(lib, before, e, w);
        ComesFromLongerRun(lib, now, events, before.tasks[w].req.uri, before.tasks[w].got);
      } else {
        FetchedNow(lib, now, events, w);
      }
    }
  }

  /** What a cached entry stands for: the part that was read of one 200 response to a GET for a URI with this very
      key, received in this run, whose first Cache-Control line names neither no-store nor private. */
  ghost predicate Genuine(lib: Lib, now: int, events: seq<Event>, key: string, e: Entry, uri: Uri, got: Received) {
    && ComesFromRun(lib, now, events, uri, got)
    && MakeKey(uri) == key
    && got.response.status == e.response.status == Http.HTTP_OK
    && CacheControl.Storable(got.response.headers)
    && e.body == got.body
    && e.response == Http.Chain(got.response, 2)
  }

  /** The whole-run invariant of the cache, for every interleaving, eviction and failure. */
  lemma CacheIsGenuine(lib: Lib, now: int, events: seq<Event>, key: string)
    requires var p := Run(lib, Initial(now), events); key in p.cache
    ensures var p := Run(lib, Initial(now), events);
            p.cache[key] < |p.heap| && exists uri, got :: Genuine(lib, now, events, key, p.heap[p.cache[key]], uri, got)
  {
    StoryIsTheRun(lib, now, events);
    StoryIsTracked(lib, now, events);
    StoryIsSourced(lib, now, events);
    var world := Story(lib, now, events);
    var r := world.proxy.cache[key];
    var uri, got := world.trail[r].uri, world.trail[r].got;
    assert EntryOk(lib, world.proxy.heap[r], world.trail[r]);
    assert Http.Chain(got.response, 1) == Http.CopyOnto(got.response, Http.EMPTY);
    assert Genuine(lib, now, events, key, world.proxy.heap[r], uri, got);
  }

  /** Event `i` is the answer that the entry was made of, and the entry's body is the whole of it exactly when it was
      read to its end. */
  ghost predicate FilledBy(lib: Lib, now: int, events: seq<Event>, key: string, e: Entry, i: nat, uri: Uri,
                           got: Received)
  {
    && Fetched(lib, now, events, i, uri, got) && Genuine(lib, now, events, key, e, uri, got)
    && (e.body == events[i].body <==> events[i].read >= |events[i].body|)
  }

  /** In every reachable state a cached body is complete exactly when the answer it came from was read to its end: a
      transfer that is cut short fails no call that a handler would notice. */
  lemma CachedBodyIsCompleteIff(lib: Lib, now: int, events: seq<Event>, key: string)
    requires var p := Run(lib, Initial(now), events); key in p.cache
    ensures var p := Run(lib, Initial(now), events);
            && p.cache[key] < |p.heap|
            && exists i, uri, got :: FilledBy(lib, now, events, key, p.heap[p.cache[key]], i, uri, got)
  {
    CacheIsGenuine(lib, now, events, key);
    var p := Run(lib, Initial(now), events);
    var e := p.heap[p.cache[key]];
    var uri, got :| Genuine(lib, now, events, key, e, uri, got);
    var i: nat :| Fetched(lib, now, events, i, uri, got);
    assert events[i].read < |events[i].body| ==> |Read(events[i].body, events[i].read)| == events[i].read;
    assert FilledBy(lib, now, events, key, e, i, uri, got);
  }

  /** Extending an entry that has been replaced in the map (or evicted) changes no mapped entry, and extending
      one that is mapped changes only the expiry of that one. */
  lemma ExtensionIsLocal(lib: Lib, now: int, events: seq<Event>, w: Worker, key: string)
    requires var p := Run(lib, Initial(now), events); w in p.tasks && p.tasks[w].Extend? && key in p.cache
    ensures var p := Run(lib, Initial(now), events); var next := Step(lib, p, Act(w));
            && next.cache == p.cache && p.cache[key] < |p.heap| == |next.heap|
            && next.heap[p.cache[key]]
               == if p.cache[key] == p.tasks[w].item then Validated(p.heap[p.cache[key]]) else p.heap[p.cache[key]]
  {
    StoryIsTheRun(lib, now, events);
    StoryIsTracked(lib, now, events);
    var world := Story(lib, now, events);
    assert TaskOk(world, world.proxy.tasks[w]);
    ExtendsOne(lib, world.proxy, w, key);
  }

  lemma ExtendsOne(lib: Lib, p: Proxy, w: Worker, key: string)
    requires w in p.tasks && p.tasks[w].Extend? && p.tasks[w].item < |p.heap| && key in p.cache
             && p.cache[key] < |p.heap|
    ensures var next := Step(lib, p, Act(w));
            next.cache == p.cache && |next.heap| == |p.heap|
            && next.heap[p.cache[key]]
               == if p.cache[key] == p.tasks[w].item then Validated(p.heap[p.cache[key]]) else p.heap[p.cache[key]]
  {
  }

  // ---- One request, one write ----

  /** How often worker `w` changes the heap of entries in the course of the events. */
  function Writes(lib: Lib, p: Proxy, events: seq<Event>, w: Worker): nat {
    if events == [] then 0
    else
      var before, e := Run(lib, p, events[..|events| - 1]), events[|events| - 1];
      Writes(lib, p, events[..|events| - 1], w)
      + if e == Act(w) && Step(lib, before, e).heap != before.heap then 1 else 0
  }

  /** The writes a worker's request can still make. */
  function WritesLeft(p: Proxy, w: Worker): nat {
    if w !in p.tasks then 0
    else
      match p.tasks[w]
      case Replay(_, _, _, _, _) => 0
      case Deliver(_, _, _) => 0
      case Fetch(req, _) => if req.verb == "GET" then 1 else 0
      case _ => 1
  }

  lemma WriteUsesBudget(lib: Lib, p: Proxy, e: Event, w: Worker)
    requires e.Begin? ==> e.w != w
    ensures WritesLeft(Step(lib, p, e), w) + (if e == Act(w) && Step(lib, p, e).heap != p.heap then 1 else 0)
            <= WritesLeft(p, w)
  {
  }

  /** Until the worker begins another request it writes at most once, whoever else runs in between and wherever it is
      cut short; a request that is not a GET never writes. */
  lemma {:induction false} OneWritePerRequest(lib: Lib, p: Proxy, events: seq<Event>, w: Worker)
    requires forall i :: 0 <= i < |events| && events[i].Begin? ==> events[i].w != w
    ensures Writes(lib, p, events, w) + WritesLeft(Run(lib, p, events), w) <= WritesLeft(p, w) <= 1
  {
    if events != [] {
      OneWritePerRequest(lib, p, events[..|events| - 1], w);
      WriteUsesBudget(lib, Run(lib, p, events[..|events| - 1]), events[|events| - 1], w);
    }
  }

  /** A key of the cache only ever changes by an eviction, which drops it, or by a store under that very key. */
  lemma KeysChangeByStores(lib: Lib, p: Proxy, e: Event, key: string)
    requires key in Step(lib, p, e).cache && !(key in p.cache && p.cache[key] == Step(lib, p, e).cache[key])
    ensures e.Act? && e.w in p.tasks && p.tasks[e.w].Store? && MakeKey(p.tasks[e.w].req.uri) == key
    ensures Step(lib, p, e).cache[key] == |p.heap| == |Step(lib, p, e).heap| - 1
  {
  }
}
