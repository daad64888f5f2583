/** How stale a reply from the cache can be, against an origin whose resources change over time. */
module Staleness {
  import opened Wrappers
  import opened Freshness
  import opened CacheKey
  import opened Proxy
  import opened CacheInvariant
  import opened ExpiryBound
  import Http

  /** What the origin holds for a target at an instant. */
  datatype Representation = Representation(response: Http.Response, body: string)

  type History = (Target, int) -> Representation

  ghost predicate Held(history: History, target: Target, at: int, status: int, body: string) {
    history(target, at).response.status == status && history(target, at).body == body
  }

  predicate Matches(response: Http.Response, v: Validator) {
    match v
    case ETag(tag) => Http.First(response.headers, "etag") == Some(tag)
    case LastModified(date) => Http.First(response.headers, "last-modified") == Some(date)
  }

  /** A validator of a resource identifies its status and body, over its whole history. */
  ghost predicate StrongValidators(history: History) {
    forall target, s, t, v :: Matches(history(target, s).response, v) && Matches(history(target, t).response, v) ==>
      Held(history, target, s, history(target, t).response.status, history(target, t).body)
  }

  predicate Unambiguous(uri: Uri) {
    CacheKey.WellFormed(uri) && !EndsInDigit(uri.host)
  }

  /** What is assumed of the environment: URIs whose keys cannot be confused; an origin that answers a GET with what
      it holds at that instant, dated no later, and read to its end; and a 304 only while the validator still
      matches. */
  ghost predicate Honest(lib: Lib, history: History, p: Proxy, e: Event) {
    match e
    case Begin(w, req) => Unambiguous(req.uri)
    case FetchAnswer(w, response, body, read) =>
      w in p.tasks && p.tasks[w].Fetch? && p.tasks[w].req.verb == "GET" ==>
        && history(TargetOf(p.tasks[w].req.uri), p.now) == Representation(response, body)
        && read >= |body|
        && (DateOf(lib, response.headers).Some? ==> DateOf(lib, response.headers).value <= p.now)
    case PingAnswer(w, status) =>
      status == NOT_MODIFIED && w in p.tasks && p.tasks[w].Ping? && p.tasks[w].item < |p.heap| ==>
        (match ItemValidator(p.heap[p.tasks[w].item])
         case None => true
         case Some(v) => Matches(history(TargetOf(p.tasks[w].req.uri), p.now).response, v))
    case _ => true
  }

  ghost predicate HonestRun(lib: Lib, history: History, now: int, events: seq<Event>) {
    forall i :: 0 <= i < |events| ==> Honest(lib, history, Run(lib, Initial(now), events[..i]), events[i])
  }

  // ---- The invariant ----

  ghost predicate VouchedEntry(history: History, world: World, r: Ref)
    requires r < |world.trail| && r < |world.proxy.heap|
  {
    var e, t := world.proxy.heap[r], world.trail[r];
    && Unambiguous(t.uri)
    && history(TargetOf(t.uri), t.got.at) == Representation(t.got.response, t.got.body)
    && Held(history, TargetOf(t.uri), t.held, e.response.status, e.body)
    && e.responseTime <= t.got.at <= t.built && t.held <= world.proxy.now
    && (t.extended || !e.mustRevalidate ==> t.credit <= t.held)
    && (t.credit <= t.held || t.credit <= t.built)
    && (e.mustRevalidate && !t.extended ==> e.expire == t.built)
    && (e.lifetime < 0 ==> e.expire <= t.built)
  }

  ghost predicate Recent(history: History, world: World, target: Target, item: Ref, checked: int, p: int, status: int,
                         body: string)
    requires item < |world.trail| && item < |world.proxy.heap|
  {
    Held(history, target, p, status, body)
    && p <= checked < p + world.proxy.heap[item].lifetime * world.trail[item].overlap
    && world.proxy.heap[item].lifetime >= 0
  }

  ghost predicate VouchedTask(lib: Lib, history: History, world: World, task: Task) {
    && Unambiguous(task.req.uri)
    && var target := TargetOf(task.req.uri);
       match task
       case Ping(req, start, item, checked) => item < |world.trail| && world.trail[item].built <= checked
       case Extend(req, start, item, checked, confirmed) =>
         && item < |world.trail| && item < |world.proxy.heap| && world.trail[item].built <= checked
         && Held(history, target, confirmed, world.proxy.heap[item].response.status, world.proxy.heap[item].body)
       case Replay(req, start, item, checked, warrant) =>
         && item < |world.trail| && item < |world.proxy.heap|
         && var e := world.proxy.heap[item];
            (match warrant
             case Confirmed(at) => Held(history, target, at, e.response.status, e.body)
             case Fresh => exists p :: Recent(history, world, target, item, checked, p, e.response.status, e.body))
       case Store(req, start, got) =>
         && history(target, got.at) == Representation(got.response, got.body)
         && (DateOf(lib, got.response.headers).Some? ==> DateOf(lib, got.response.headers).value <= got.at)
       case Deliver(req, start, got) =>
         req.verb == "GET" ==> history(target, got.at) == Representation(got.response, got.body)
       case _ => true
  }

  /** A GET was answered with what the origin held at some instant: either within this very request, or less than one
      lifetime, for each worker that ever overlapped in revalidating the entry, before its freshness check. */
  ghost predicate VouchedReply(history: History, world: World, reply: Reply) {
    reply.req.verb == "GET" ==>
      var target := TargetOf(reply.req.uri);
      || (exists p :: Held(history, target, p, reply.status, reply.body) && reply.start <= p <= reply.at)
      || match reply.source
         case FromOrigin => false
         case FromCache(item, checked, warrant) =>
           && item < |world.trail| && item < |world.proxy.heap|
           && exists p :: Recent(history, world, target, item, checked, p, reply.status, reply.body)
  }

  ghost predicate Vouched(lib: Lib, history: History, world: World) {
    && |world.trail| == |world.proxy.heap|
    && (forall r :: 0 <= r < |world.trail| ==> VouchedEntry(history, world, r))
    && (forall w :: w in world.proxy.tasks ==> VouchedTask(lib, history, world, world.proxy.tasks[w]))
    && (forall i :: 0 <= i < |world.proxy.replies| ==> VouchedReply(history, world, world.proxy.replies[i]))
  }

  // ---- What survives a step ----

  lemma RecentSurvives(history: History, a: World, b: World, target: Target, item: Ref, checked: int, p: int,
                       status: int, body: string)
    requires Grows(a, b) && item < |a.trail| && Recent(history, a, target, item, checked, p, status, body)
    ensures Recent(history, b, target, item, checked, p, status, body)
  {
    MulMono(a.proxy.heap[item].lifetime, a.trail[item].overlap, b.trail[item].overlap);
  }

  lemma VouchedTaskSurvives(lib: Lib, history: History, a: World, b: World, task: Task)
    requires Grows(a, b) && VouchedTask(lib, history, a, task)
    ensures VouchedTask(lib, history, b, task)
  {
    if task.Replay? && task.warrant.Fresh? {
      var e, target := a.proxy.heap[task.item], TargetOf(task.req.uri);
      var p :| Recent(history, a, target, task.item, task.checked, p, e.response.status, e.body);
      RecentSurvives(history, a, b, target, task.item, task.checked, p, e.response.status, e.body);
    }
  }

  lemma VouchedReplySurvives(history: History, a: World, b: World, reply: Reply)
    requires Grows(a, b) && VouchedReply(history, a, reply)
    ensures VouchedReply(history, b, reply)
  {
    var target := TargetOf(reply.req.uri);
    if reply.req.verb == "GET" && reply.source.FromCache?
       && !exists p :: Held(history, target, p, reply.status, reply.body) && reply.start <= p <= reply.at {
      var item, checked := reply.source.item, reply.source.checked;
      var p :| Recent(history, a, target, item, checked, p, reply.status, reply.body);
      RecentSurvives(history, a, b, target, item, checked, p, reply.status, reply.body);
    }
  }

  // ---- The steps that matter ----

  /** Copying keeps the validators, so the origin is asked about the one it sent. */
  lemma ValidatorSurvives(lib: Lib, world: World, r: Ref)
    requires Tracked(lib, world) && r < |world.trail|
    ensures ItemValidator(world.proxy.heap[r]) == ValidatorOf(world.trail[r].got.response.headers)
    ensures world.proxy.heap[r].response.status == world.trail[r].got.response.status
    ensures world.proxy.heap[r].body == world.trail[r].got.body
  {
    var origin := world.trail[r].got.response;
    assert EntryOk(lib, world.proxy.heap[r], world.trail[r]);
    assert Http.Chain(origin, 1) == Http.CopyOnto(origin, Http.EMPTY);
    assert Http.Chain(origin, 2) == world.proxy.heap[r].response;
    assert Http.Chain(origin, 3) == Http.CopyOnto(world.proxy.heap[r].response, Http.EMPTY);
    Http.ChainConserves(origin, 3, "etag");
    Http.ChainConserves(origin, 3, "last-modified");
    Http.ChainConserves(origin, 2, "etag");
  }

  lemma ItemIsFor(lib: Lib, history: History, world: World, req: Request, item: Ref)
    requires Vouched(lib, history, world) && ItemOk(world, req, item) && Unambiguous(req.uri)
    ensures world.trail[item].uri == req.uri
  {
    assert VouchedEntry(history, world, item);
    KeyIsInjective(world.trail[item].uri, req.uri);
  }

  lemma SameBehindValidator(history: History, target: Target, s: int, t: int, v: Validator)
    requires StrongValidators(history)
    requires Matches(history(target, s).response, v) && Matches(history(target, t).response, v)
    ensures Held(history, target, t, history(target, s).response.status, history(target, s).body)
  {
  }

  lemma OwnValidatorMatches(response: Http.Response)
    requires ValidatorOf(response.headers).Some?
    ensures Matches(response, ValidatorOf(response.headers).value)
  {
  }

  /** What is known of an entry that a worker asks the origin about. */
  lemma AskedAbout(lib: Lib, history: History, world: World, w: Worker)
    requires Tracked(lib, world) && Vouched(lib, history, world)
    requires w in world.proxy.tasks && world.proxy.tasks[w].Ping?
    ensures var task := world.proxy.tasks[w]; var item := task.item;
            && item < |world.trail| == |world.proxy.heap|
            && var e, t := world.proxy.heap[item], world.trail[item];
               && t.uri == task.req.uri && ItemValidator(e).Some?
               && ItemValidator(e) == ValidatorOf(t.got.response.headers)
               && history(TargetOf(t.uri), t.got.at) == Representation(t.got.response, t.got.body)
               && e.response.status == t.got.response.status && e.body == t.got.body
  {
    var task := world.proxy.tasks[w];
    assert TaskOk(world, task) && VouchedTask(lib, history, world, task);
    ItemIsFor(lib, history, world, task.req, task.item);
    ValidatorSurvives(lib, world, task.item);
    assert VouchedEntry(history, world, task.item);
  }

  /** A 304 means that the origin holds, at that instant, what the entry holds. */
  lemma ConfirmationHolds(lib: Lib, history: History, world: World, w: Worker)
    requires Tracked(lib, world) && Vouched(lib, history, world) && StrongValidators(history)
    requires w in world.proxy.tasks && world.proxy.tasks[w].Ping?
    requires Honest(lib, history, world.proxy, PingAnswer(w, NOT_MODIFIED))
    ensures var task := world.proxy.tasks[w];
            && task.item < |world.proxy.heap|
            && var e := world.proxy.heap[task.item];
               Held(history, TargetOf(task.req.uri), world.proxy.now, e.response.status, e.body)
  {
    AskedAbout(lib, history, world, w);
    var t := world.trail[world.proxy.tasks[w].item];
    OwnValidatorMatches(t.got.response);
    SameBehindValidator(history, TargetOf(t.uri), t.got.at, world.proxy.now, ValidatorOf(t.got.response.headers).value);
  }

  /** A fresh entry was vouched for less than its overlap's worth of lifetimes ago. */
  lemma FreshIsRecent(lib: Lib, history: History, world: World, r: Ref)
    requires Tracked(lib, world) && Vouched(lib, history, world) && AllBounded(world)
    requires r < |world.trail| && IsValid(world.proxy.heap[r], world.proxy.now)
    ensures var e, t := world.proxy.heap[r], world.trail[r];
            Recent(history, world, TargetOf(t.uri), r, world.proxy.now, t.held, e.response.status, e.body)
  {
    assert VouchedEntry(history, world, r);
    var e := world.proxy.heap[r];
    assert Timed(e) && Bounded(world, r);
    MulMono(e.lifetime, 0, |Before(world.proxy, r, world.trail[r].credit)|);
  }

  /** An entry confirmed at an instant, and then extended, is vouched for at that instant. */
  lemma ConfirmedStaysVouched(history: History, a: World, b: World, r: Ref, checked: int, confirmed: int)
    requires r < |a.trail| == |a.proxy.heap| && r < |b.trail| == |b.proxy.heap| && VouchedEntry(history, a, r)
    requires checked <= confirmed <= a.proxy.now <= b.proxy.now
    requires var e, t := a.proxy.heap[r], a.trail[r];
             && Held(history, TargetOf(t.uri), confirmed, e.response.status, e.body)
             && t.built <= checked
             && b.proxy.heap[r] == Validated(e)
             && b.trail[r] == t.(credit := Max(t.credit, checked), held := Max(t.held, confirmed), extended := true)
    ensures VouchedEntry(history, b, r)
  {
  }

  lemma ExtendKeepsEntryVouched(lib: Lib, history: History, world: World, w: Worker)
    requires Tracked(lib, world) && Vouched(lib, history, world)
    requires w in world.proxy.tasks && world.proxy.tasks[w].Extend?
    ensures var item, next := world.proxy.tasks[w].item, Next(lib, world, Act(w));
            item < |next.trail| == |next.proxy.heap| && VouchedEntry(history, next, item)
  {
    var task, next := world.proxy.tasks[w], Next(lib, world, Act(w));
    assert TaskOk(world, task) && VouchedTask(lib, history, world, task);
    ItemIsFor(lib, history, world, task.req, task.item);
    ExtendEffect(lib, world, w);
    ConfirmedStaysVouched(history, world, next, task.item, task.checked, task.confirmed);
  }

  lemma StoredEntryIsVouched(lib: Lib, history: History, world: World, w: Worker)
    requires Tracked(lib, world) && Vouched(lib, history, world) && w in world.proxy.tasks
             && world.proxy.tasks[w].Store?
    requires |Next(lib, world, Act(w)).trail| > |world.trail|
    ensures var next := Next(lib, world, Act(w));
            |next.trail| == |next.proxy.heap| && VouchedEntry(history, next, |world.trail|)
  {
    var r, next, task := |world.trail|, Next(lib, world, Act(w)), world.proxy.tasks[w];
    assert TaskOk(world, task) && VouchedTask(lib, history, world, task);
    StoreStep(lib, world, Act(w));
    StepGrows(lib, world, Act(w));
    HeapStaysOk(lib, world, Act(w));
    ValidatorSurvivesIn(lib, next, r);
  }

  lemma ValidatorSurvivesIn(lib: Lib, world: World, r: Ref)
    requires HeapOk(lib, world) && r < |world.trail|
    ensures world.proxy.heap[r].response.status == world.trail[r].got.response.status
    ensures world.proxy.heap[r].body == world.trail[r].got.body
  {
    var origin := world.trail[r].got.response;
    assert EntryOk(lib, world.proxy.heap[r], world.trail[r]);
    Http.ChainConserves(origin, 2, "etag");
  }

  lemma ExtendIsVouched(lib: Lib, history: History, world: World, w: Worker)
    requires |world.trail| == |world.proxy.heap| && w in world.proxy.tasks && world.proxy.tasks[w].Extend?
    requires VouchedTask(lib, history, world, world.proxy.tasks[w])
    ensures var next := Next(lib, world, Act(w));
            w in next.proxy.tasks && VouchedTask(lib, history, next, next.proxy.tasks[w])
  {
    ExtendStep(lib, world, Act(w));
  }

  lemma OtherActorIsVouched(lib: Lib, history: History, world: World, w: Worker)
    requires |world.trail| == |world.proxy.heap| && w in world.proxy.tasks
    requires !world.proxy.tasks[w].Check? && !world.proxy.tasks[w].Extend?
    requires VouchedTask(lib, history, world, world.proxy.tasks[w])
    requires TaskOk(world, world.proxy.tasks[w])
    ensures var next := Next(lib, world, Act(w));
            w in next.proxy.tasks ==> VouchedTask(lib, history, next, next.proxy.tasks[w])
  {
    if world.proxy.tasks[w].Store? {
      StoreStep(lib, world, Act(w));
    }
  }

  /** Own steps: what the acting worker does next is vouched for. */
  lemma ActorIsVouched(lib: Lib, history: History, world: World, w: Worker)
    requires Tracked(lib, world) && Vouched(lib, history, world) && AllBounded(world) && w in world.proxy.tasks
    ensures var next := Next(lib, world, Act(w));
            w in next.proxy.tasks ==> VouchedTask(lib, history, next, next.proxy.tasks[w])
  {
    match world.proxy.tasks[w]
    case Check(_, _, _) => CheckIsVouched(lib, history, world, w);
    case Extend(_, _, _, _, _) => ExtendIsVouched(lib, history, world, w);
    case _ => OtherActorIsVouched(lib, history, world, w);
  }

  lemma CheckIsVouched(lib: Lib, history: History, world: World, w: Worker)
    requires Tracked(lib, world) && Vouched(lib, history, world) && AllBounded(world)
    requires w in world.proxy.tasks && world.proxy.tasks[w].Check?
    ensures var next := Next(lib, world, Act(w));
            w in next.proxy.tasks && VouchedTask(lib, history, next, next.proxy.tasks[w])
  {
    var task, next := world.proxy.tasks[w], Next(lib, world, Act(w));
    assert TaskOk(world, task) && VouchedTask(lib, history, world, task);
    ItemIsFor(lib, history, world, task.req, task.item);
    assert VouchedEntry(history, world, task.item);
    CheckedIsVouched(lib, history, world, w);
  }

  lemma CheckedIsVouched(lib: Lib, history: History, world: World, w: Worker)
    requires Tracked(lib, world) && Vouched(lib, history, world) && AllBounded(world)
    requires w in world.proxy.tasks && world.proxy.tasks[w].Check? && world.proxy.tasks[w].item < |world.trail|
    requires Unambiguous(world.proxy.tasks[w].req.uri)
    requires world.trail[world.proxy.tasks[w].item].uri == world.proxy.tasks[w].req.uri
    requires world.trail[world.proxy.tasks[w].item].built <= world.proxy.now
    ensures var next := Next(lib, world, Act(w));
            w in next.proxy.tasks && VouchedTask(lib, history, next, next.proxy.tasks[w])
  {
    var task, next := world.proxy.tasks[w], Next(lib, world, Act(w));
    CheckStep(lib, world, Act(w));
    CheckedTask(lib, world.proxy, w);
    var e := world.proxy.heap[task.item];
    if IsValid(e, world.proxy.now) {
      FreshIsRecent(lib, history, world, task.item);
      var t := world.trail[task.item];
      StepGrows(lib, world, Act(w));
      RecentSurvives(history, world, next, TargetOf(t.uri), task.item, world.proxy.now, t.held,
                     e.response.status, e.body);
    }
  }

  /** Answers from the network. */
  lemma AnswerIsVouched(lib: Lib, history: History, world: World, e: Event)
    requires Tracked(lib, world) && Vouched(lib, history, world) && StrongValidators(history)
    requires Honest(lib, history, world.proxy, e) && (e.PingAnswer? || e.FetchAnswer? || e.Begin?)
    ensures var next := Next(lib, world, e);
            e.w in next.proxy.tasks ==> VouchedTask(lib, history, next, next.proxy.tasks[e.w])
  {
    var next := Next(lib, world, e);
    if e.w in world.proxy.tasks {
      var task := world.proxy.tasks[e.w];
      assert TaskOk(world, task) && VouchedTask(lib, history, world, task);
      QuietStep(lib, world, e);
      if e.PingAnswer? && e.status == NOT_MODIFIED && task.Ping? {
        assert e == PingAnswer(e.w, NOT_MODIFIED);
        ConfirmationHolds(lib, history, world, e.w);
      }
    }
  }

  lemma TasksStayVouched(lib: Lib, history: History, world: World, e: Event, w: Worker)
    requires Tracked(lib, world) && Vouched(lib, history, world) && AllBounded(world) && StrongValidators(history)
    requires Honest(lib, history, world.proxy, e) && w in Next(lib, world, e).proxy.tasks
    ensures VouchedTask(lib, history, Next(lib, world, e), Next(lib, world, e).proxy.tasks[w])
  {
    if (e.PingAnswer? || e.FetchAnswer? || e.Begin?) && e.w == w {
      AnswerIsVouched(lib, history, world, e);
    } else if e == Act(w) {
      if w in world.proxy.tasks {
        ActorIsVouched(lib, history, world, w);
      }
    } else {
      StepGrows(lib, world, e);
      BystandersStay(lib, world.proxy, e, w);
      VouchedTaskSurvives(lib, history, world, Next(lib, world, e), world.proxy.tasks[w]);
    }
  }

  lemma UntouchedStaysVouched(lib: Lib, history: History, world: World, e: Event, r: Ref)
    requires |world.trail| == |world.proxy.heap| && r < |world.trail| && VouchedEntry(history, world, r)
    requires !KindOf(world, e).Extends? || world.proxy.tasks[e.w].item != r
    ensures var next := Next(lib, world, e); r < |next.trail| == |next.proxy.heap| && VouchedEntry(history, next, r)
  {
    StepGrows(lib, world, e);
    if KindOf(world, e).Checks? {
      CheckStep(lib, world, e);
    } else {
      OthersAreUntouched(lib, world, e, r);
    }
  }

  lemma EntriesStayVouched(lib: Lib, history: History, world: World, e: Event)
    requires Tracked(lib, world) && Vouched(lib, history, world)
    ensures var next := Next(lib, world, e);
            |next.trail| == |next.proxy.heap| && forall r :: 0 <= r < |next.trail| ==> VouchedEntry(history, next, r)
  {
    var next, k := Next(lib, world, e), KindOf(world, e);
    StepGrows(lib, world, e);
    forall r | 0 <= r < |next.trail|
      ensures VouchedEntry(history, next, r)
    {
      if r >= |world.trail| {
        NewEntryWasStored(lib, world, e, r);
        StoreStep(lib, world, e);
        StoredEntryIsVouched(lib, history, world, e.w);
      } else {
        assert VouchedEntry(history, world, r);
        if k.Extends? && world.proxy.tasks[e.w].item == r {
          ExtendKeepsEntryVouched(lib, history, world, e.w);
        } else {
          UntouchedStaysVouched(lib, history, world, e, r);
        }
      }
    }
  }

  lemma ReplayIsVouched(lib: Lib, history: History, world: World, w: Worker)
    requires |world.trail| == |world.proxy.heap| && w in world.proxy.tasks && world.proxy.tasks[w].Replay?
    requires TaskOk(world, world.proxy.tasks[w]) && VouchedTask(lib, history, world, world.proxy.tasks[w])
    ensures var next, n := Next(lib, world, Act(w)), |world.proxy.replies|;
            |next.proxy.replies| > n && VouchedReply(history, next, next.proxy.replies[n])
  {
    var task, next := world.proxy.tasks[w], Next(lib, world, Act(w));
    QuietStep(lib, world, Act(w));
    ReplayStep(lib, world.proxy, w);
    var e, target := world.proxy.heap[task.item], TargetOf(task.req.uri);
    if task.warrant.Fresh? {
      var p :| Recent(history, world, target, task.item, task.checked, p, e.response.status, e.body);
      assert Recent(history, next, target, task.item, task.checked, p, e.response.status, e.body);
    } else {
      assert Held(history, target, task.warrant.at, e.response.status, e.body);
    }
  }

  lemma DeliveryIsVouched(lib: Lib, history: History, world: World, w: Worker)
    requires w in world.proxy.tasks && world.proxy.tasks[w].Deliver?
    requires TaskOk(world, world.proxy.tasks[w]) && VouchedTask(lib, history, world, world.proxy.tasks[w])
    ensures var next, n := Next(lib, world, Act(w)), |world.proxy.replies|;
            |next.proxy.replies| > n && VouchedReply(history, next, next.proxy.replies[n])
  {
    var task := world.proxy.tasks[w];
    DeliverStep(lib, world.proxy, w);
    if task.req.verb == "GET" {
      assert Held(history, TargetOf(task.req.uri), task.got.at, task.got.response.status, task.got.body);
    }
  }

  lemma NewReplyIsVouched(lib: Lib, history: History, world: World, w: Worker)
    requires Tracked(lib, world) && Vouched(lib, history, world) && w in world.proxy.tasks
    requires |Next(lib, world, Act(w)).proxy.replies| > |world.proxy.replies|
    ensures var next, n := Next(lib, world, Act(w)), |world.proxy.replies|;
            VouchedReply(history, next, next.proxy.replies[n])
  {
    OnlyTheseAnswer(lib, world.proxy, w);
    assert TaskOk(world, world.proxy.tasks[w]) && VouchedTask(lib, history, world, world.proxy.tasks[w]);
    if world.proxy.tasks[w].Replay? {
      ReplayIsVouched(lib, history, world, w);
    } else {
      DeliveryIsVouched(lib, history, world, w);
    }
  }

  lemma VouchedRepliesCarryOver(history: History, a: World, b: World)
    requires Grows(a, b) && Appends(a.proxy, b.proxy)
    requires forall i :: 0 <= i < |a.proxy.replies| ==> VouchedReply(history, a, a.proxy.replies[i])
    requires |b.proxy.replies| > |a.proxy.replies| ==> VouchedReply(history, b, b.proxy.replies[|a.proxy.replies|])
    ensures forall i :: 0 <= i < |b.proxy.replies| ==> VouchedReply(history, b, b.proxy.replies[i])
  {
    forall i | 0 <= i < |a.proxy.replies| ensures VouchedReply(history, b, a.proxy.replies[i]) {
      VouchedReplySurvives(history, a, b, a.proxy.replies[i]);
    }
  }

  lemma RepliesStayVouched(lib: Lib, history: History, world: World, e: Event)
    requires Tracked(lib, world) && Vouched(lib, history, world)
    ensures var next := Next(lib, world, e);
            forall i :: 0 <= i < |next.proxy.replies| ==> VouchedReply(history, next, next.proxy.replies[i])
  {
    StepAppends(lib, world, e);
    if |Next(lib, world, e).proxy.replies| > |world.proxy.replies| {
      NewReplyIsVouched(lib, history, world, e.w);
    }
    StepGrows(lib, world, e);
    VouchedRepliesCarryOver(history, world, Next(lib, world, e));
  }

  lemma AllTasksStayVouched(lib: Lib, history: History, world: World, e: Event)
    requires Tracked(lib, world) && Vouched(lib, history, world) && AllBounded(world) && StrongValidators(history)
    requires Honest(lib, history, world.proxy, e)
    ensures var next := Next(lib, world, e);
            forall w :: w in next.proxy.tasks ==> VouchedTask(lib, history, next, next.proxy.tasks[w])
  {
    forall w | w in Next(lib, world, e).proxy.tasks
      ensures VouchedTask(lib, history, Next(lib, world, e), Next(lib, world, e).proxy.tasks[w])
    {
      TasksStayVouched(lib, history, world, e, w);
    }
  }

  lemma StepStaysVouched(lib: Lib, history: History, world: World, e: Event)
    requires Tracked(lib, world) && Vouched(lib, history, world) && AllBounded(world) && StrongValidators(history)
    requires Honest(lib, history, world.proxy, e)
    ensures Vouched(lib, history, Next(lib, world, e))
  {
    EntriesStayVouched(lib, history, world, e);
    AllTasksStayVouched(lib, history, world, e);
    RepliesStayVouched(lib, history, world, e);
  }

  lemma {:induction false} HonestStoryIsVouched(lib: Lib, history: History, now: int, events: seq<Event>)
    requires StrongValidators(history) && HonestRun(lib, history, now, events)
    ensures Vouched(lib, history, Story(lib, now, events))
  {
    if events != [] {
      var n := |events| - 1;
      var earlier := events[..n];
      var before := Story(lib, now, earlier);
      forall i | 0 <= i < n
        ensures Honest(lib, history, Run(lib, Initial(now), earlier[..i]), earlier[i])
      {
        assert earlier[..i] == events[..i];
      }
      HonestStoryIsVouched(lib, history, now, earlier);
      StoryIsTracked(lib, now, earlier);
      StoryIsBounded(lib, now, earlier);
      StoryIsTheRun(lib, now, earlier);
      assert Honest(lib, history, before.proxy, events[n]);
      StepStaysVouched(lib, history, before, events[n]);
    }
  }

  /** Bounded staleness, under every interleaving: whatever the proxy answers to a GET is what the origin held for
      that very target, either during the request or less than `overlap` lifetimes before its freshness check. */
  lemma BoundedStaleness(lib: Lib, history: History, now: int, events: seq<Event>, i: nat)
    requires StrongValidators(history) && HonestRun(lib, history, now, events)
    requires i < |Run(lib, Initial(now), events).replies|
    ensures VouchedReply(history, Story(lib, now, events), Run(lib, Initial(now), events).replies[i])
  {
    StoryIsTheRun(lib, now, events);
    HonestStoryIsVouched(lib, history, now, events);
  }

  /** With one worker the window is a single lifetime, as for a cache that restarts the lifetime at each 304. */
  lemma SequentialStaleness(lib: Lib, history: History, now: int, events: seq<Event>, i: nat)
    requires StrongValidators(history) && HonestRun(lib, history, now, events) && OnPool(events, 1)
    requires i < |Run(lib, Initial(now), events).replies|
    requires Run(lib, Initial(now), events).replies[i].req.verb == "GET"
    ensures var run := Run(lib, Initial(now), events); var reply := run.replies[i];
            var target := TargetOf(reply.req.uri);
            exists p :: Held(history, target, p, reply.status, reply.body)
                        && (reply.start <= p <= reply.at
                            || (reply.source.FromCache? && reply.source.item < |run.heap|
                                && p <= reply.source.checked < p + run.heap[reply.source.item].lifetime))
  {
    StoryIsTheRun(lib, now, events);
    BoundedStaleness(lib, history, now, events, i);
    OverlapWithinPool(lib, now, events, 1);
    var world := Story(lib, now, events);
    var reply := world.proxy.replies[i];
    var target := TargetOf(reply.req.uri);
    if !exists p :: Held(history, target, p, reply.status, reply.body) && reply.start <= p <= reply.at {
      var item := reply.source.item;
      var p :| Recent(history, world, target, item, reply.source.checked, p, reply.status, reply.body);
      MulMono(world.proxy.heap[item].lifetime, world.trail[item].overlap, 1);
      assert Held(history, target, p, reply.status, reply.body);
    }
  }
}
