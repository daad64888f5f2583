/** How far concurrent revalidations can push an entry's expiry.

    `validated` adds a lifetime to the expiry instead of restarting it from the current time, so several workers that
    found the same entry stale each add one. The bound counts, at any threshold instant, the workers that found the
    entry stale by then and may still extend it. */
module ExpiryBound {
  import opened Freshness
  import opened Proxy
  import opened CacheInvariant

  /** Entries for which the freshness check looks at the clock. */
  predicate Timed(e: Entry) {
    !e.noCache && Seconds(e.lifetime) != -1 && e.lifetime >= 0
  }

  function Before(p: Proxy, r: Ref, t: int): set<Worker> {
    set w | w in p.tasks && Waits(p.tasks[w], r) && p.tasks[w].checked <= t
  }

  ghost predicate Bound(world: World, r: Ref, t: int)
    requires r < |world.proxy.heap| && r < |world.trail|
  {
    var e := world.proxy.heap[r];
    e.expire + e.lifetime * |Before(world.proxy, r, t)| <= t + e.lifetime * world.trail[r].overlap
  }

  /** The bound holds at the entry's credit and at every later check that is still pending. */
  ghost predicate Bounded(world: World, r: Ref)
    requires r < |world.proxy.heap| && r < |world.trail|
  {
    && 1 <= world.trail[r].overlap && |Pending(world.proxy, r)| <= world.trail[r].overlap
    && Bound(world, r, world.trail[r].credit)
    && forall w :: w in Pending(world.proxy, r) && world.proxy.tasks[w].checked >= world.trail[r].credit ==>
         Bound(world, r, world.proxy.tasks[w].checked)
  }

  ghost predicate AllBounded(world: World) {
    && |world.trail| == |world.proxy.heap|
    && forall r :: 0 <= r < |world.trail| && Timed(world.proxy.heap[r]) ==> Bounded(world, r)
  }

  // ---- Arithmetic ----

  lemma {:induction false} SubsetSize<T>(a: set<T>, b: set<T>)
    requires a <= b
    ensures |a| <= |b|
  {
    if a != {} {
      var x :| x in a;
      SubsetSize(a - {x}, b - {x});
    }
  }

  lemma MulMono(f: int, a: int, b: int)
    requires f >= 0 && a <= b
    ensures f * a <= f * b
  {
    assert f * (b - a) >= 0;
  }

  // ---- One step ----

  /** No waiting worker is new, and none has moved its check instant. */
  ghost predicate NoNewWaiters(p: Proxy, next: Proxy, r: Ref) {
    forall w :: w in next.tasks && Waits(next.tasks[w], r) ==>
      w in p.tasks && Waits(p.tasks[w], r) && next.tasks[w].checked == p.tasks[w].checked
  }

  lemma ActedWaiter(lib: Lib, p: Proxy, w: Worker, r: Ref)
    requires w in p.tasks && !p.tasks[w].Check? && w in Step(lib, p, Act(w)).tasks
    requires Waits(Step(lib, p, Act(w)).tasks[w], r)
    ensures p.tasks[w] == Step(lib, p, Act(w)).tasks[w]
  {
  }

  lemma AnsweredWaiter(lib: Lib, p: Proxy, e: Event, r: Ref)
    requires (e.PingAnswer? || e.FetchAnswer? || e.Begin?) && e.w in Step(lib, p, e).tasks
    requires Waits(Step(lib, p, e).tasks[e.w], r)
    ensures e.w in p.tasks && Waits(p.tasks[e.w], r) && Step(lib, p, e).tasks[e.w].checked == p.tasks[e.w].checked
  {
  }

  lemma OnlyChecksAddWaiters(lib: Lib, p: Proxy, e: Event, r: Ref)
    requires !(e.Act? && e.w in p.tasks && p.tasks[e.w].Check?)
    ensures NoNewWaiters(p, Step(lib, p, e), r)
  {
    var next := Step(lib, p, e);
    forall w | w in next.tasks && Waits(next.tasks[w], r)
      ensures w in p.tasks && Waits(p.tasks[w], r) && next.tasks[w].checked == p.tasks[w].checked
    {
      if e == Act(w) {
        if w in p.tasks { ActedWaiter(lib, p, w, r); }
      } else if (e.PingAnswer? || e.FetchAnswer? || e.Begin?) && e.w == w {
        AnsweredWaiter(lib, p, e, r);
      } else {
        BystandersStay(lib, p, e, w);
      }
    }
  }

  lemma FewerWaiters(world: World, next: World, r: Ref, t: int)
    requires r < |world.proxy.heap| && r < |world.trail| && r < |next.proxy.heap| && r < |next.trail|
    requires NoNewWaiters(world.proxy, next.proxy, r)
    requires next.proxy.heap[r] == world.proxy.heap[r] && next.trail[r].overlap == world.trail[r].overlap
    requires world.proxy.heap[r].lifetime >= 0
    ensures |Pending(next.proxy, r)| <= |Pending(world.proxy, r)|
    ensures Bound(world, r, t) ==> Bound(next, r, t)
  {
    SubsetSize(Pending(next.proxy, r), Pending(world.proxy, r));
    SubsetSize(Before(next.proxy, r, t), Before(world.proxy, r, t));
    MulMono(world.proxy.heap[r].lifetime, |Before(next.proxy, r, t)|, |Before(world.proxy, r, t)|);
  }

  /** Steps that leave the entry and its history alone. */
  lemma UntouchedStaysBounded(world: World, next: World, r: Ref)
    requires r < |world.proxy.heap| && r < |world.trail| && r < |next.proxy.heap| && r < |next.trail|
    requires NoNewWaiters(world.proxy, next.proxy, r)
    requires next.proxy.heap[r] == world.proxy.heap[r] && next.trail[r] == world.trail[r]
    requires Timed(world.proxy.heap[r]) && Bounded(world, r)
    ensures Bounded(next, r)
  {
    FewerWaiters(world, next, r, world.trail[r].credit);
    forall w | w in Pending(next.proxy, r) && next.proxy.tasks[w].checked >= next.trail[r].credit
      ensures Bound(next, r, next.proxy.tasks[w].checked)
    {
      FewerWaiters(world, next, r, next.proxy.tasks[w].checked);
    }
  }

  lemma ExtendedWaiters(lib: Lib, p: Proxy, w: Worker, t: int)
    requires w in p.tasks && p.tasks[w].Extend? && p.tasks[w].item < |p.heap| && p.tasks[w].checked <= t
    ensures var r := p.tasks[w].item;
            w in Before(p, r, t) && Before(Step(lib, p, Act(w)), r, t) == Before(p, r, t) - {w}
  {
  }

  lemma ExtendedEntry(lib: Lib, world: World, w: Worker)
    requires |world.trail| == |world.proxy.heap| && w in world.proxy.tasks && world.proxy.tasks[w].Extend?
    requires world.proxy.tasks[w].item < |world.trail| && Timed(world.proxy.heap[world.proxy.tasks[w].item])
    ensures var task, next := world.proxy.tasks[w], Next(lib, world, Act(w));
            && |next.trail| == |next.proxy.heap| == |world.trail|
            && var e, was, is_ := world.proxy.heap[task.item], world.trail[task.item], next.trail[task.item];
               && next.proxy.heap[task.item] == e.(expire := e.expire + e.lifetime)
               && is_.overlap == was.overlap && is_.credit == Max(was.credit, task.checked)
  {
  }

  /** Extending worker `w`'s entry: one lifetime is added and one waiter is gone from every threshold at or after
      its check. */
  lemma ExtensionKeepsBound(lib: Lib, world: World, w: Worker, t: int)
    requires |world.trail| == |world.proxy.heap| && w in world.proxy.tasks && world.proxy.tasks[w].Extend?
    requires world.proxy.tasks[w].item < |world.trail| && Timed(world.proxy.heap[world.proxy.tasks[w].item])
    requires Bound(world, world.proxy.tasks[w].item, t) && world.proxy.tasks[w].checked <= t
    ensures var next := Next(lib, world, Act(w));
            |next.trail| == |next.proxy.heap| == |world.trail| && Bound(next, world.proxy.tasks[w].item, t)
  {
    var r, next := world.proxy.tasks[w].item, Next(lib, world, Act(w));
    ExtendedEntry(lib, world, w);
    ExtendedWaiters(lib, world.proxy, w, t);
    var f, n := world.proxy.heap[r].lifetime, |Before(world.proxy, r, t)|;
    assert |Before(next.proxy, r, t)| == n - 1;
    assert f * (n - 1) == f * n - f;
  }

  lemma ExtendedStaysBounded(lib: Lib, world: World, w: Worker)
    requires |world.trail| == |world.proxy.heap| && w in world.proxy.tasks && world.proxy.tasks[w].Extend?
    requires world.proxy.tasks[w].item < |world.trail| && Timed(world.proxy.heap[world.proxy.tasks[w].item])
    requires Bounded(world, world.proxy.tasks[w].item)
    ensures var next := Next(lib, world, Act(w));
            |next.trail| == |next.proxy.heap| == |world.trail| && Bounded(next, world.proxy.tasks[w].item)
  {
    var task, next := world.proxy.tasks[w], Next(lib, world, Act(w));
    var r := task.item;
    ExtendedEntry(lib, world, w);
    OnlyChecksAddWaiters(lib, world.proxy, Act(w), r);
    SubsetSize(Pending(next.proxy, r), Pending(world.proxy, r));
    assert w in Pending(world.proxy, r);
    ExtensionKeepsBound(lib, world, w, Max(world.trail[r].credit, task.checked));
    forall v | v in Pending(next.proxy, r) && next.proxy.tasks[v].checked >= next.trail[r].credit
      ensures Bound(next, r, next.proxy.tasks[v].checked)
    {
      assert v in Pending(world.proxy, r);
      ExtensionKeepsBound(lib, world, w, next.proxy.tasks[v].checked);
    }
  }

  /** At any threshold by which the entry has expired, the bound holds outright. */
  lemma ExpiredMeetsBound(world: World, r: Ref, t: int)
    requires r < |world.proxy.heap| && r < |world.trail| && world.proxy.heap[r].lifetime >= 0
    requires world.proxy.heap[r].expire <= t && |Pending(world.proxy, r)| <= world.trail[r].overlap
    ensures Bound(world, r, t)
  {
    SubsetSize(Before(world.proxy, r, t), Pending(world.proxy, r));
    MulMono(world.proxy.heap[r].lifetime, |Before(world.proxy, r, t)|, world.trail[r].overlap);
  }

  lemma CheckedEntry(lib: Lib, world: World, w: Worker)
    requires |world.trail| == |world.proxy.heap| && w in world.proxy.tasks && world.proxy.tasks[w].Check?
    requires world.proxy.tasks[w].item < |world.trail| && Timed(world.proxy.heap[world.proxy.tasks[w].item])
    ensures var r, next := world.proxy.tasks[w].item, Next(lib, world, Act(w));
            && |next.trail| == |next.proxy.heap| == |world.trail| && next.proxy.heap[r] == world.proxy.heap[r]
            && next.trail[r] == world.trail[r].(overlap := Max(world.trail[r].overlap, |Pending(next.proxy, r)|))
            && (forall v :: v in Pending(next.proxy, r) ==>
                  if v == w then next.proxy.tasks[v].checked == world.proxy.now >= world.proxy.heap[r].expire
                  else v in Pending(world.proxy, r) && next.proxy.tasks[v] == world.proxy.tasks[v])
  {
  }

  /** A check only adds its own worker, at the current instant, and only if the entry has expired by then. */
  lemma CheckKeepsBound(lib: Lib, world: World, w: Worker, t: int)
    requires |world.trail| == |world.proxy.heap| && w in world.proxy.tasks && world.proxy.tasks[w].Check?
    requires world.proxy.tasks[w].item < |world.trail| && Timed(world.proxy.heap[world.proxy.tasks[w].item])
    requires Bound(world, world.proxy.tasks[w].item, t)
    ensures var next := Next(lib, world, Act(w));
            |next.trail| == |next.proxy.heap| == |world.trail| && Bound(next, world.proxy.tasks[w].item, t)
  {
    var r, next := world.proxy.tasks[w].item, Next(lib, world, Act(w));
    CheckedEntry(lib, world, w);
    assert forall v :: v in Before(next.proxy, r, t) ==> v in Pending(next.proxy, r);
    if w in Before(next.proxy, r, t) {
      ExpiredMeetsBound(next, r, t);
    } else {
      SubsetSize(Before(next.proxy, r, t), Before(world.proxy, r, t));
      MulMono(world.proxy.heap[r].lifetime, |Before(next.proxy, r, t)|, |Before(world.proxy, r, t)|);
      MulMono(world.proxy.heap[r].lifetime, world.trail[r].overlap, next.trail[r].overlap);
    }
  }

  lemma CheckedStaysBounded(lib: Lib, world: World, w: Worker)
    requires |world.trail| == |world.proxy.heap| && w in world.proxy.tasks && world.proxy.tasks[w].Check?
    requires world.proxy.tasks[w].item < |world.trail| && Timed(world.proxy.heap[world.proxy.tasks[w].item])
    requires Bounded(world, world.proxy.tasks[w].item)
    ensures var next := Next(lib, world, Act(w));
            |next.trail| == |next.proxy.heap| == |world.trail| && Bounded(next, world.proxy.tasks[w].item)
  {
    var r, next := world.proxy.tasks[w].item, Next(lib, world, Act(w));
    CheckedEntry(lib, world, w);
    CheckKeepsBound(lib, world, w, world.trail[r].credit);
    forall v | v in Pending(next.proxy, r) && next.proxy.tasks[v].checked >= next.trail[r].credit
      ensures Bound(next, r, next.proxy.tasks[v].checked)
    {
      if v == w {
        ExpiredMeetsBound(next, r, world.proxy.now);
      } else {
        CheckKeepsBound(lib, world, w, world.proxy.tasks[v].checked);
      }
    }
  }

  /** A new entry expires at most one lifetime after its credit, and nobody waits for it yet. */
  lemma NewIsBounded(lib: Lib, world: World, w: Worker)
    requires Tracked(lib, world) && w in world.proxy.tasks && world.proxy.tasks[w].Store?
    requires var next := Next(lib, world, Act(w)).proxy;
             |next.heap| > |world.proxy.heap| && Timed(next.heap[|world.proxy.heap|])
    ensures |Next(lib, world, Act(w)).trail| > |world.trail| && Bounded(Next(lib, world, Act(w)), |world.trail|)
  {
    var r, next := |world.trail|, Next(lib, world, Act(w));
    StoreStep(lib, world, Act(w));
    NobodyWaitsForNew(lib, world, Act(w));
    assert Pending(next.proxy, r) == {};
    assert Before(next.proxy, r, next.trail[r].credit) == {};
  }

  lemma StorerWaitsForNobody(lib: Lib, p: Proxy, w: Worker, r: Ref)
    requires w in p.tasks && p.tasks[w].Store? && w in Step(lib, p, Act(w)).tasks
    ensures !Waits(Step(lib, p, Act(w)).tasks[w], r)
  {
  }

  lemma NobodyWaitsForNew(lib: Lib, world: World, e: Event)
    requires Tracked(lib, world) && KindOf(world, e).Stores?
    ensures Pending(Next(lib, world, e).proxy, |world.trail|) == {}
  {
    var p := world.proxy;
    var next := Step(lib, p, e);
    forall w | w in next.tasks ensures !Waits(next.tasks[w], |world.trail|) {
      if w == e.w {
        StorerWaitsForNobody(lib, p, w, |world.trail|);
      } else {
        BystandersStay(lib, p, e, w);
        assert TaskOk(world, p.tasks[w]);
      }
    }
  }

  /** The events that can change what is known of one entry. */
  predicate Touches(p: Proxy, e: Event, r: Ref) {
    e.Act? && e.w in p.tasks && (p.tasks[e.w].Check? || p.tasks[e.w].Extend?) && p.tasks[e.w].item == r
  }

  lemma OtherCheckAddsNoWaiter(lib: Lib, p: Proxy, w: Worker, r: Ref)
    requires w in p.tasks && p.tasks[w].Check? && p.tasks[w].item != r
    ensures var next := Step(lib, p, Act(w)); w in next.tasks && !Waits(next.tasks[w], r)
  {
    if p.tasks[w].item < |p.heap| {
      CheckedTask(lib, p, w);
    }
  }

  lemma OthersAddNoWaiters(lib: Lib, p: Proxy, e: Event, r: Ref)
    requires !Touches(p, e, r)
    ensures NoNewWaiters(p, Step(lib, p, e), r)
  {
    if e.Act? && e.w in p.tasks && p.tasks[e.w].Check? {
      OtherCheckAddsNoWaiter(lib, p, e.w, r);
      var next := Step(lib, p, e);
      forall w | w in next.tasks && Waits(next.tasks[w], r) ensures w in p.tasks && p.tasks[w] == next.tasks[w] {
        BystandersStay(lib, p, e, w);
      }
    } else {
      OnlyChecksAddWaiters(lib, p, e, r);
    }
  }

  lemma OthersAreUntouched(lib: Lib, world: World, e: Event, r: Ref)
    requires |world.trail| == |world.proxy.heap| && r < |world.trail| && !Touches(world.proxy, e, r)
    ensures var next := Next(lib, world, e);
            && r < |next.trail| == |next.proxy.heap|
            && next.proxy.heap[r] == world.proxy.heap[r] && next.trail[r] == world.trail[r]
  {
    StepGrows(lib, world, e);
    match KindOf(world, e)
    case Quiet => QuietStep(lib, world, e);
    case Checks =>
    case Extends =>
    case Stores => StoreStep(lib, world, e);
  }

  lemma OthersStayBounded(lib: Lib, world: World, e: Event, r: Ref)
    requires Tracked(lib, world) && r < |world.trail| && Timed(world.proxy.heap[r]) && Bounded(world, r)
    requires !Touches(world.proxy, e, r)
    ensures var next := Next(lib, world, e); r < |next.trail| == |next.proxy.heap| && Bounded(next, r)
  {
    OthersAddNoWaiters(lib, world.proxy, e, r);
    OthersAreUntouched(lib, world, e, r);
    UntouchedStaysBounded(world, Next(lib, world, e), r);
  }

  lemma StepKeepsBounds(lib: Lib, world: World, e: Event)
    requires Tracked(lib, world) && AllBounded(world)
    ensures AllBounded(Next(lib, world, e))
  {
    var next := Next(lib, world, e);
    StepGrows(lib, world, e);
    forall r | 0 <= r < |next.trail| && Timed(next.proxy.heap[r])
      ensures Bounded(next, r)
    {
      if r >= |world.trail| {
        NewEntryWasStored(lib, world, e, r);
        StoreStep(lib, world, e);
        NewIsBounded(lib, world, e.w);
      } else if Touches(world.proxy, e, r) {
        if world.proxy.tasks[e.w].Check? {
          CheckedStaysBounded(lib, world, e.w);
        } else {
          ExtendedStaysBounded(lib, world, e.w);
        }
      } else {
        OthersStayBounded(lib, world, e, r);
      }
    }
  }

  lemma {:induction false} StoryIsBounded(lib: Lib, now: int, events: seq<Event>)
    ensures AllBounded(Story(lib, now, events))
  {
    if events != [] {
      StoryIsBounded(lib, now, events[..|events| - 1]);
      StoryIsTracked(lib, now, events[..|events| - 1]);
      StepKeepsBounds(lib, Story(lib, now, events[..|events| - 1]), events[|events| - 1]);
    }
  }

  // ---- The bound ----

  lemma LatestCheck(p: Proxy, ws: set<Worker>) returns (w: Worker)
    requires ws != {} && forall v :: v in ws ==> v in p.tasks && (p.tasks[v].Ping? || p.tasks[v].Extend?)
    ensures w in ws && forall v :: v in ws ==> p.tasks[v].checked <= p.tasks[w].checked
  {
    w :| w in ws;
    if ws != {w} {
      var v := LatestCheck(p, ws - {w});
      if p.tasks[w].checked < p.tasks[v].checked {
        w := v;
      }
    }
  }

  /** `c` is where the entry's expiry is anchored: the instant of a check that found it stale, by a worker that has
      yet to extend it, or the entry's credit. */
  ghost predicate Anchor(world: World, r: Ref, c: int)
    requires r < |world.trail|
  {
    c == world.trail[r].credit || exists w :: w in Pending(world.proxy, r) && world.proxy.tasks[w].checked == c
  }

  /** The expiry, plus one lifetime for each extension still to come, is at most the anchor plus one lifetime for
      each worker that ever overlapped in revalidating the entry. */
  ghost predicate ExpiryWithin(world: World, r: Ref, c: int)
    requires r < |world.trail| && r < |world.proxy.heap|
  {
    var e := world.proxy.heap[r];
    e.expire + e.lifetime * |Pending(world.proxy, r)| <= c + e.lifetime * world.trail[r].overlap
  }

  /** In every reachable state, under every interleaving. */
  lemma ExpiryIsBounded(lib: Lib, now: int, events: seq<Event>, r: Ref)
    requires r < |Run(lib, Initial(now), events).heap| && Timed(Run(lib, Initial(now), events).heap[r])
    ensures var world := Story(lib, now, events);
            && world.proxy == Run(lib, Initial(now), events) && r < |world.trail|
            && (exists c :: Anchor(world, r, c) && ExpiryWithin(world, r, c))
            && world.proxy.heap[r].expire
               <= world.trail[r].credit + world.proxy.heap[r].lifetime * world.trail[r].overlap
  {
    StoryIsTheRun(lib, now, events);
    StoryIsBounded(lib, now, events);
    var world := Story(lib, now, events);
    var p, c := world.proxy, world.trail[r].credit;
    MulMono(p.heap[r].lifetime, 0, |Before(p, r, c)|);
    if Pending(p, r) != {} {
      var w := LatestCheck(p, Pending(p, r));
      c := Max(c, p.tasks[w].checked);
      assert Bound(world, r, c);
    }
    assert Before(p, r, c) == Pending(p, r);
    assert Anchor(world, r, c) && ExpiryWithin(world, r, c);
  }

  // ---- How many workers can overlap ----

  /** A run on a pool of `n` threads. */
  ghost predicate OnPool(events: seq<Event>, n: nat) {
    forall i :: 0 <= i < |events| && events[i].Begin? ==> events[i].w < n
  }

  lemma {:induction false} PoolSize(ws: set<Worker>, n: nat)
    requires forall w :: w in ws ==> w < n
    ensures |ws| <= n
  {
    if n == 0 {
      assert ws == {};
    } else {
      PoolSize(ws - {n - 1}, n - 1);
    }
  }

  ghost predicate WithinPool(world: World, n: nat) {
    && (forall w :: w in world.proxy.tasks ==> w < n)
    && forall r :: 0 <= r < |world.trail| ==> world.trail[r].overlap <= Max(1, n)
  }

  lemma WorkersStayInPool(lib: Lib, p: Proxy, e: Event, n: nat, w: Worker)
    requires (forall v :: v in p.tasks ==> v < n) && (e.Begin? ==> e.w < n) && w in Step(lib, p, e).tasks
    ensures w < n
  {
  }

  lemma StepStaysWithinPool(lib: Lib, world: World, e: Event, n: nat)
    requires Tracked(lib, world) && WithinPool(world, n) && (e.Begin? ==> e.w < n)
    ensures WithinPool(Next(lib, world, e), n)
  {
    var next := Next(lib, world, e);
    forall w | w in next.proxy.tasks ensures w < n {
      WorkersStayInPool(lib, world.proxy, e, n, w);
    }
    forall r | 0 <= r < |next.trail| ensures next.trail[r].overlap <= Max(1, n) {
      PoolSize(Pending(next.proxy, r), n);
      OverlapStep(lib, world, e, r);
    }
  }

  lemma CheckedOverlap(lib: Lib, world: World, w: Worker)
    requires |world.trail| == |world.proxy.heap| && w in world.proxy.tasks && world.proxy.tasks[w].Check?
    requires world.proxy.tasks[w].item < |world.trail|
    ensures var r, next := world.proxy.tasks[w].item, Next(lib, world, Act(w));
            && r < |next.trail|
            && next.trail[r].overlap == Max(world.trail[r].overlap, |Pending(next.proxy, r)|)
  {
  }

  lemma NewOverlap(lib: Lib, world: World, w: Worker)
    requires |world.trail| == |world.proxy.heap| && w in world.proxy.tasks && world.proxy.tasks[w].Store?
    requires |Next(lib, world, Act(w)).trail| > |world.trail|
    ensures Next(lib, world, Act(w)).trail[|world.trail|].overlap == 1
  {
  }

  lemma OverlapStep(lib: Lib, world: World, e: Event, r: Ref)
    requires Tracked(lib, world) && r < |Next(lib, world, e).trail|
    ensures var next := Next(lib, world, e);
            next.trail[r].overlap
            <= if r < |world.trail| then Max(world.trail[r].overlap, |Pending(next.proxy, r)|) else 1
  {
    if r >= |world.trail| {
      NewEntryWasStored(lib, world, e, r);
      StoreStep(lib, world, e);
      NewOverlap(lib, world, e.w);
    } else if !Touches(world.proxy, e, r) {
      OthersAreUntouched(lib, world, e, r);
    } else if world.proxy.tasks[e.w].Check? {
      CheckedOverlap(lib, world, e.w);
    } else {
      ExtendEffect(lib, world, e.w);
    }
  }

  lemma {:induction false} OverlapWithinPool(lib: Lib, now: int, events: seq<Event>, n: nat)
    requires OnPool(events, n)
    ensures WithinPool(Story(lib, now, events), n)
  {
    if events != [] {
      OverlapWithinPool(lib, now, events[..|events| - 1], n);
      StoryIsTracked(lib, now, events[..|events| - 1]);
      StepStaysWithinPool(lib, Story(lib, now, events[..|events| - 1]), events[|events| - 1], n);
    }
  }

  /** On a pool of `n` threads, an entry's expiry is at most `n` lifetimes after its credit. */
  lemma ExpiryWithinPool(lib: Lib, now: int, events: seq<Event>, n: nat, r: Ref)
    requires OnPool(events, n) && r < |Run(lib, Initial(now), events).heap|
    requires Timed(Run(lib, Initial(now), events).heap[r])
    ensures var world := Story(lib, now, events);
            && world.proxy == Run(lib, Initial(now), events) && r < |world.trail|
            && world.proxy.heap[r].expire <= world.trail[r].credit + world.proxy.heap[r].lifetime * Max(1, n)
  {
    ExpiryIsBounded(lib, now, events, r);
    OverlapWithinPool(lib, now, events, n);
    var world := Story(lib, now, events);
    MulMono(world.proxy.heap[r].lifetime, world.trail[r].overlap, Max(1, n));
  }

  // ---- The credit ----

  /** An entry's credit is the instant its expiry counts from at first (its Date, or the instant it was built under
      must-revalidate), or else a past instant. */
  ghost predicate CreditOk(world: World, r: Ref)
    requires r < |world.trail| && r < |world.proxy.heap|
  {
    var e, t := world.proxy.heap[r], world.trail[r];
    t.built <= world.proxy.now
    && (t.credit <= world.proxy.now || (!e.mustRevalidate && t.credit == e.responseTime))
  }

  lemma CreditStep(lib: Lib, world: World, e: Event, r: Ref)
    requires Tracked(lib, world) && r < |Next(lib, world, e).trail|
    requires r < |world.trail| ==> CreditOk(world, r)
    ensures var next := Next(lib, world, e); r < |next.proxy.heap| && CreditOk(next, r)
  {
    StepGrows(lib, world, e);
    if r >= |world.trail| {
      NewEntryWasStored(lib, world, e, r);
      StoreStep(lib, world, e);
      NewCredit(lib, world, e.w);
    } else if !Touches(world.proxy, e, r) {
      OthersAreUntouched(lib, world, e, r);
    } else if KindOf(world, e).Checks? {
      CheckStep(lib, world, e);
    } else {
      assert TaskOk(world, world.proxy.tasks[e.w]);
      ExtendEffect(lib, world, e.w);
    }
  }

  lemma NewCredit(lib: Lib, world: World, w: Worker)
    requires |world.trail| == |world.proxy.heap| && w in world.proxy.tasks && world.proxy.tasks[w].Store?
    requires |Next(lib, world, Act(w)).trail| > |world.trail|
    ensures var next, n := Next(lib, world, Act(w)), |world.trail|;
            n < |next.proxy.heap| && next.trail[n].built == next.proxy.now
            && next.trail[n].credit
               == if next.proxy.heap[n].mustRevalidate then next.proxy.now else next.proxy.heap[n].responseTime
  {
  }

  lemma {:induction false} CreditIsPast(lib: Lib, now: int, events: seq<Event>, r: Ref)
    requires r < |Story(lib, now, events).trail|
    ensures r < |Story(lib, now, events).proxy.heap| && CreditOk(Story(lib, now, events), r)
  {
    if events != [] {
      var earlier := events[..|events| - 1];
      StoryIsTracked(lib, now, earlier);
      if r < |Story(lib, now, earlier).trail| {
        CreditIsPast(lib, now, earlier, r);
      }
      CreditStep(lib, Story(lib, now, earlier), events[|events| - 1], r);
    }
  }
}
