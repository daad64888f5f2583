/** The bound on a hit without a 304, said of the events of a run: which check an entry's expiry counts from. */
module Credit {
  import opened Freshness
  import opened Proxy
  import opened CacheInvariant
  import opened ExpiryBound

  /** Event `j` is worker `w`'s check of entry `r`, at instant `c`, and finds it stale. */
  ghost predicate FindsStale(lib: Lib, now: int, events: seq<Event>, j: nat, w: Worker, r: Ref, c: int) {
    && j < |events| && events[j] == Act(w)
    && var p := Run(lib, Initial(now), events[..j]);
       && w in p.tasks && p.tasks[w].Check? && p.tasks[w].item == r && r < |p.heap|
       && p.now == c && !IsValid(p.heap[r], c)
  }

  /** Event `k` is worker `w` extending entry `r`, which it had checked at instant `c`. */
  ghost predicate ExtendsAfter(lib: Lib, now: int, events: seq<Event>, k: nat, w: Worker, r: Ref, c: int) {
    && k < |events| && events[k] == Act(w)
    && var p := Run(lib, Initial(now), events[..k]);
       w in p.tasks && p.tasks[w].Extend? && p.tasks[w].item == r && r < |p.heap| && p.tasks[w].checked == c
  }

  /** Event `i` puts entry `r` into the cache, at instant `c`. */
  ghost predicate PutsIn(lib: Lib, now: int, events: seq<Event>, i: nat, w: Worker, r: Ref, c: int) {
    && i < |events| && events[i] == Act(w)
    && var p := Run(lib, Initial(now), events[..i]);
       w in p.tasks && p.tasks[w].Store? && |p.heap| == r && |Step(lib, p, events[i]).heap| > r && p.now == c
  }

  /** Worker `w` found entry `r` stale at instant `c`, and later extended it. */
  ghost predicate Revalidates(lib: Lib, now: int, events: seq<Event>, j: nat, k: nat, w: Worker, r: Ref, c: int) {
    j < k && FindsStale(lib, now, events, j, w, r, c) && ExtendsAfter(lib, now, events, k, w, r, c)
  }

  /** What the expiry of entry `r`, which is now `e`, counts from: its Date, or the instant it was put in under
      must-revalidate, or the instant of a check that found it stale before it was extended. */
  ghost predicate CountsFrom(lib: Lib, now: int, events: seq<Event>, r: Ref, e: Entry, c: int) {
    || (!e.mustRevalidate && c == e.responseTime)
    || (e.mustRevalidate && exists i, w :: PutsIn(lib, now, events, i, w, r, c))
    || exists j, k, w :: Revalidates(lib, now, events, j, k, w, r, c)
  }

  /** No extension of entry `r` follows a later check. */
  ghost predicate IsLatest(lib: Lib, now: int, events: seq<Event>, r: Ref, c: int) {
    forall k, w, later :: ExtendsAfter(lib, now, events, k, w, r, later) ==> later <= c
  }

  lemma FoundStaleEarlier(lib: Lib, now: int, events: seq<Event>, j: nat, w: Worker, r: Ref, c: int)
    requires events != [] && FindsStale(lib, now, events[..|events| - 1], j, w, r, c)
    ensures FindsStale(lib, now, events, j, w, r, c)
  {
    assert events[..|events| - 1][..j] == events[..j];
  }

  lemma PutInEarlier(lib: Lib, now: int, events: seq<Event>, i: nat, w: Worker, r: Ref, c: int)
    requires events != [] && PutsIn(lib, now, events[..|events| - 1], i, w, r, c)
    ensures PutsIn(lib, now, events, i, w, r, c)
  {
    assert events[..|events| - 1][..i] == events[..i];
  }

  lemma ExtendedEarlier(lib: Lib, now: int, events: seq<Event>, k: nat, w: Worker, r: Ref, c: int)
    requires events != [] && ExtendsAfter(lib, now, events[..|events| - 1], k, w, r, c)
    ensures ExtendsAfter(lib, now, events, k, w, r, c)
  {
    assert events[..|events| - 1][..k] == events[..k];
  }

  lemma CountedEarlier(lib: Lib, now: int, events: seq<Event>, r: Ref, e: Entry, f: Entry, c: int)
    requires events != [] && CountsFrom(lib, now, events[..|events| - 1], r, e, c)
    requires f.mustRevalidate == e.mustRevalidate && f.responseTime == e.responseTime
    ensures CountsFrom(lib, now, events, r, f, c)
  {
    var earlier := events[..|events| - 1];
    if j: nat, k: nat, w :| Revalidates(lib, now, earlier, j, k, w, r, c) {
      FoundStaleEarlier(lib, now, events, j, w, r, c);
      ExtendedEarlier(lib, now, events, k, w, r, c);
      assert Revalidates(lib, now, events, j, k, w, r, c);
    } else if i: nat, w :| PutsIn(lib, now, earlier, i, w, r, c) {
      PutInEarlier(lib, now, events, i, w, r, c);
    }
  }

  lemma NewWaiter(lib: Lib, p: Proxy, w: Worker, r: Ref)
    requires w in p.tasks && w in Step(lib, p, Act(w)).tasks && Waits(Step(lib, p, Act(w)).tasks[w], r)
    ensures var task, next := p.tasks[w], Step(lib, p, Act(w)).tasks[w];
            || next == task
            || (task.Check? && task.item == r && r < |p.heap| && !IsValid(p.heap[r], p.now) && next.checked == p.now)
  {
    if p.tasks[w].Check? && p.tasks[w].item < |p.heap| {
      CheckedTask(lib, p, w);
    } else if !p.tasks[w].Check? {
      ActedWaiter(lib, p, w, r);
    }
  }

  /** Whoever revalidates an entry had found it stale. */
  lemma {:induction false} WaiterFoundStale(lib: Lib, now: int, events: seq<Event>, w: Worker, r: Ref)
    returns (j: nat)
    requires w in Run(lib, Initial(now), events).tasks && Waits(Run(lib, Initial(now), events).tasks[w], r)
    ensures FindsStale(lib, now, events, j, w, r, Run(lib, Initial(now), events).tasks[w].checked)
  {
    var n := |events| - 1;
    var p, e := Run(lib, Initial(now), events[..n]), events[n];
    if e == Act(w) && w in p.tasks {
      NewWaiter(lib, p, w, r);
    } else if (e.PingAnswer? || e.FetchAnswer? || e.Begin?) && e.w == w {
      AnsweredWaiter(lib, p, e, r);
    } else if e != Act(w) {
      BystandersStay(lib, p, e, w);
    }
    if w in p.tasks && p.tasks[w].Check? {
      j := n;
    } else {
      j := WaiterFoundStale(lib, now, events[..n], w, r);
      FoundStaleEarlier(lib, now, events, j, w, r, p.tasks[w].checked);
    }
  }

  lemma ExtensionCounts(lib: Lib, now: int, events: seq<Event>, w: Worker, r: Ref, e: Entry, c: int)
    requires events != [] && ExtendsAfter(lib, now, events, |events| - 1, w, r, c)
    ensures CountsFrom(lib, now, events, r, e, c)
  {
    var n := |events| - 1;
    var j := WaiterFoundStale(lib, now, events[..n], w, r);
    FoundStaleEarlier(lib, now, events, j, w, r, c);
    assert Revalidates(lib, now, events, j, n, w, r, c);
  }

  lemma LatestNext(lib: Lib, now: int, events: seq<Event>, last: nat, r: Ref, c: int, d: int)
    requires |events| == last + 1 && IsLatest(lib, now, events[..last], r, c) && c <= d
    requires forall w, later :: ExtendsAfter(lib, now, events, last, w, r, later) ==> later <= d
    ensures IsLatest(lib, now, events, r, d)
  {
    var earlier := events[..last];
    forall k: nat, w, later | ExtendsAfter(lib, now, events, k, w, r, later) ensures later <= d {
      if k < |earlier| {
        assert earlier[..k] == events[..k];
        assert ExtendsAfter(lib, now, earlier, k, w, r, later);
      }
    }
  }

  /** An entry that is not there yet is not extended. */
  lemma NoneIsLatest(lib: Lib, now: int, events: seq<Event>, r: Ref, c: int)
    requires |Run(lib, Initial(now), events).heap| <= r
    ensures IsLatest(lib, now, events, r, c)
  {
    forall k: nat, w, later | ExtendsAfter(lib, now, events, k, w, r, later) ensures false {
      HeapGrows(lib, Initial(now), events, k);
    }
  }

  lemma {:induction false} HeapGrows(lib: Lib, p: Proxy, events: seq<Event>, k: nat)
    requires k <= |events|
    ensures |Run(lib, p, events[..k]).heap| <= |Run(lib, p, events).heap|
  {
    if k == |events| {
      assert events[..k] == events;
    } else {
      var n := |events| - 1;
      HeapGrows(lib, p, events[..n], k);
      assert events[..n][..k] == events[..k];
      HeapStep(lib, Run(lib, p, events[..n]), events[n]);
    }
  }

  lemma HeapStep(lib: Lib, p: Proxy, e: Event)
    ensures |p.heap| <= |Step(lib, p, e).heap|
  {
  }

  ghost predicate Credited(lib: Lib, now: int, events: seq<Event>, world: World, r: Ref)
    requires r < |world.trail| && r < |world.proxy.heap|
  {
    && CountsFrom(lib, now, events, r, world.proxy.heap[r], world.trail[r].credit)
    && IsLatest(lib, now, events, r, world.trail[r].credit)
  }

  lemma NewIsCredited(lib: Lib, now: int, events: seq<Event>, world: World, r: Ref)
    requires events != [] && Tracked(lib, world) && world.proxy == Run(lib, Initial(now), events[..|events| - 1])
    requires |world.trail| <= r < |Next(lib, world, events[|events| - 1]).trail|
    ensures var next := Next(lib, world, events[|events| - 1]);
            r < |next.proxy.heap| && Credited(lib, now, events, next, r)
  {
    var n := |events| - 1;
    var e := events[n];
    NewEntryWasStored(lib, world, e, r);
    StoreStep(lib, world, e);
    NewCredit(lib, world, e.w);
    var next := Next(lib, world, e);
    if next.proxy.heap[r].mustRevalidate {
      assert PutsIn(lib, now, events, n, e.w, r, next.trail[r].credit);
    }
    NoneIsLatest(lib, now, events[..n], r, next.trail[r].credit);
    LatestNext(lib, now, events, n, r, next.trail[r].credit, next.trail[r].credit);
  }

  lemma OldIsCredited(lib: Lib, now: int, events: seq<Event>, world: World, r: Ref)
    requires events != [] && Tracked(lib, world) && world.proxy == Run(lib, Initial(now), events[..|events| - 1])
    requires r < |world.trail| && Credited(lib, now, events[..|events| - 1], world, r)
    ensures var next := Next(lib, world, events[|events| - 1]);
            r < |next.trail| && r < |next.proxy.heap| && Credited(lib, now, events, next, r)
  {
    var n := |events| - 1;
    var e, was := events[n], world.trail[r].credit;
    var next := Next(lib, world, e);
    StepGrows(lib, world, e);
    CountedEarlier(lib, now, events, r, world.proxy.heap[r], next.proxy.heap[r], was);
    if !Touches(world.proxy, e, r) {
      OthersAreUntouched(lib, world, e, r);
      LatestNext(lib, now, events, n, r, was, was);
    } else if world.proxy.tasks[e.w].Check? {
      CheckStep(lib, world, e);
      LatestNext(lib, now, events, n, r, was, was);
    } else {
      ExtendEffect(lib, world, e.w);
      var c := world.proxy.tasks[e.w].checked;
      ExtensionCounts(lib, now, events, e.w, r, next.proxy.heap[r], c);
      LatestNext(lib, now, events, n, r, was, Max(was, c));
    }
  }

  lemma {:induction false} StoryIsCredited(lib: Lib, now: int, events: seq<Event>, r: Ref)
    requires r < |Story(lib, now, events).trail|
    ensures var world := Story(lib, now, events);
            r < |world.proxy.heap| && Credited(lib, now, events, world, r)
  {
    if events != [] {
      var earlier := events[..|events| - 1];
      var before := Story(lib, now, earlier);
      StoryIsTheRun(lib, now, earlier);
      StoryIsTracked(lib, now, earlier);
      if r < |before.trail| {
        StoryIsCredited(lib, now, earlier, r);
        OldIsCredited(lib, now, events, before, r);
      } else {
        NewIsCredited(lib, now, events, before, r);
      }
    }
  }

  /** On a pool of `n` threads a hit without a 304 comes less than `n` lifetimes after an instant that an event of the
      run has: the latest check that found the entry stale before it was extended, or, if there was none, where its
      expiry counts from at first. With one thread it comes less than a single lifetime after. */
  lemma HitsStayWithinPool(lib: Lib, now: int, events: seq<Event>, n: nat, r: Ref)
    requires OnPool(events, n) && r < |Run(lib, Initial(now), events).heap|
    requires var p := Run(lib, Initial(now), events); Timed(p.heap[r]) && IsValid(p.heap[r], p.now)
    ensures var p := Run(lib, Initial(now), events); var e := p.heap[r];
            exists c :: CountsFrom(lib, now, events, r, e, c) && IsLatest(lib, now, events, r, c)
                        && p.now < c + e.lifetime * Max(1, n)
  {
    ExpiryWithinPool(lib, now, events, n, r);
    StoryIsCredited(lib, now, events, r);
  }
}
