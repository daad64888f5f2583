/** What a run has made of an entry's expiry; and, on a single thread, that the rule of adding one lifetime at each
    304 never allows a hit that restarting the lifetime at each of the same 304s would not. */
module Sequential {
  import opened Freshness
  import opened Proxy
  import opened CacheInvariant
  import opened ExpiryBound

  /** The event applies a 304 to entry `r`. */
  predicate Applies(p: Proxy, e: Event, r: Ref) {
    e.Act? && e.w in p.tasks && p.tasks[e.w].Extend? && p.tasks[e.w].item == r && r < |p.heap|
  }

  /** The instants at which a 304 was applied to entry `r`. */
  function Validations(lib: Lib, p: Proxy, events: seq<Event>, r: Ref): seq<int> {
    if events == [] then []
    else
      var before, e := Run(lib, p, events[..|events| - 1]), events[|events| - 1];
      Validations(lib, p, events[..|events| - 1], r) + if Applies(before, e, r) then [before.now] else []
  }

  /** The entry as it was put into the cache. */
  function Original(lib: Lib, trail: Trail): Entry
    requires Build(lib, trail.got.response, trail.got.body, trail.built).Ok?
  {
    Copied(Build(lib, trail.got.response, trail.got.body, trail.built).value)
  }

  /** The entry is its original, validated once for each instant. */
  ghost predicate Accounted(lib: Lib, world: World, r: Ref, vs: seq<int>) {
    && r < |world.trail| && r < |world.proxy.heap|
    && EntryOk(lib, world.proxy.heap[r], world.trail[r])
    && world.proxy.heap[r] == ValidatedTimes(Original(lib, world.trail[r]), |vs|)
  }

  lemma AppliedEntry(lib: Lib, world: World, e: Event, r: Ref)
    requires |world.trail| == |world.proxy.heap| && r < |world.trail|
    ensures Next(lib, world, e).proxy.heap[r]
            == if Applies(world.proxy, e, r) then Validated(world.proxy.heap[r]) else world.proxy.heap[r]
  {
    StepGrows(lib, world, e);
    if !Touches(world.proxy, e, r) {
      OthersAreUntouched(lib, world, e, r);
    } else if KindOf(world, e).Checks? {
      CheckStep(lib, world, e);
    } else {
      ExtendEffect(lib, world, e.w);
    }
  }

  lemma AccountedStep(lib: Lib, world: World, e: Event, r: Ref, vs: seq<int>)
    requires |world.trail| == |world.proxy.heap| && Accounted(lib, world, r, vs)
    ensures Accounted(lib, Next(lib, world, e), r, vs + if Applies(world.proxy, e, r) then [world.proxy.now] else [])
  {
    StepGrows(lib, world, e);
    GrowsKeepsEntry(lib, world, Next(lib, world, e), r);
    AppliedEntry(lib, world, e, r);
  }

  lemma NewIsAccounted(lib: Lib, world: World, e: Event, r: Ref)
    requires Tracked(lib, world) && |world.trail| <= r < |Next(lib, world, e).trail|
    ensures Accounted(lib, Next(lib, world, e), r, [])
  {
    NewEntryWasStored(lib, world, e, r);
    StoreStep(lib, world, e);
    HeapStaysOk(lib, world, e);
  }

  lemma {:induction false} NoValidationsYet(lib: Lib, now: int, events: seq<Event>, r: Ref)
    requires |Run(lib, Initial(now), events).heap| <= r
    ensures Validations(lib, Initial(now), events, r) == []
  {
    if events != [] {
      var earlier := events[..|events| - 1];
      StoryIsTheRun(lib, now, earlier);
      StoryIsTracked(lib, now, earlier);
      StepGrows(lib, Story(lib, now, earlier), events[|events| - 1]);
      NoValidationsYet(lib, now, earlier, r);
    }
  }

  /** Under every interleaving: an entry is what was stored, with one lifetime added at each 304 applied to it. */
  lemma {:induction false} EntryIsValidated(lib: Lib, now: int, events: seq<Event>, r: Ref)
    requires r < |Run(lib, Initial(now), events).heap|
    ensures Story(lib, now, events).proxy == Run(lib, Initial(now), events)
    ensures Accounted(lib, Story(lib, now, events), r, Validations(lib, Initial(now), events, r))
  {
    StoryIsTheRun(lib, now, events);
    if events != [] {
      var earlier, e := events[..|events| - 1], events[|events| - 1];
      StoryIsTheRun(lib, now, earlier);
      StoryIsTracked(lib, now, earlier);
      var before := Story(lib, now, earlier);
      if r < |before.proxy.heap| {
        EntryIsValidated(lib, now, earlier, r);
        AccountedStep(lib, before, e, r, Validations(lib, Initial(now), earlier, r));
      } else {
        StepGrows(lib, before, e);
        NewIsAccounted(lib, before, e, r);
        NoValidationsYet(lib, now, earlier, r);
      }
    }
  }

  // ---- One thread ----

  /** The freshness check of the entry looks at the clock. */
  predicate Checkable(e: Entry) {
    !e.noCache && Seconds(e.lifetime) != -1
  }

  /** There is one worker, and while it revalidates an entry that entry remains expired. */
  ghost predicate Alone(p: Proxy) {
    forall w :: w in p.tasks ==> w == 0 && WaitsForExpired(p, p.tasks[w])
  }

  /** The worker's task, if it waits for an entry, finds it expired. */
  ghost predicate WaitsForExpired(p: Proxy, task: Task) {
    forall r :: 0 <= r < |p.heap| && Waits(task, r) && Checkable(p.heap[r]) ==> p.heap[r].expire <= p.now
  }

  lemma AloneAfterCheck(lib: Lib, p: Proxy, w: Worker)
    requires Alone(p) && w in p.tasks && p.tasks[w].Check? && p.tasks[w].item < |p.heap|
    ensures Alone(Step(lib, p, Act(w)))
  {
    CheckedTask(lib, p, w);
  }

  lemma ExtendedTask(lib: Lib, p: Proxy, w: Worker)
    requires w in p.tasks && p.tasks[w].Extend? && p.tasks[w].item < |p.heap|
    ensures var next := Step(lib, p, Act(w));
            next.tasks.Keys == p.tasks.Keys && next.tasks[w].Replay? && next.tasks - {w} == p.tasks - {w}
  {
  }

  lemma AloneAfterExtend(lib: Lib, p: Proxy, w: Worker)
    requires Alone(p) && w in p.tasks && p.tasks[w].Extend? && p.tasks[w].item < |p.heap|
    ensures Alone(Step(lib, p, Act(w)))
  {
    ExtendedTask(lib, p, w);
  }

  /** A worker elsewhere does not begin to wait by a step of its own, and leaves the entries there are alone. */
  lemma ElsewhereTask(lib: Lib, p: Proxy, w: Worker)
    requires w in p.tasks && !((p.tasks[w].Check? || p.tasks[w].Extend?) && p.tasks[w].item < |p.heap|)
    ensures var next := Step(lib, p, Act(w));
            && next.tasks.Keys <= p.tasks.Keys && next.now == p.now
            && |p.heap| <= |next.heap| && next.heap[..|p.heap|] == p.heap
            && (w in next.tasks ==> next.tasks[w] == p.tasks[w] || forall r :: !Waits(next.tasks[w], r))
            && (|next.heap| > |p.heap| ==> w in next.tasks && next.tasks[w].Deliver?)
  {
  }

  lemma AloneAfterOther(lib: Lib, p: Proxy, w: Worker)
    requires Alone(p) && w in p.tasks && !((p.tasks[w].Check? || p.tasks[w].Extend?) && p.tasks[w].item < |p.heap|)
    ensures Alone(Step(lib, p, Act(w)))
  {
    ElsewhereTask(lib, p, w);
    var next := Step(lib, p, Act(w));
    forall v | v in next.tasks ensures v == 0 && WaitsForExpired(next, next.tasks[v]) {
      assert v in p.tasks && WaitsForExpired(p, p.tasks[v]);
    }
  }

  lemma AloneAfterAnswer(lib: Lib, p: Proxy, e: Event)
    requires Alone(p) && !e.Act? && (e.Begin? ==> e.w == 0)
    ensures Alone(Step(lib, p, e))
  {
  }

  lemma AloneStep(lib: Lib, p: Proxy, e: Event)
    requires Alone(p) && (e.Begin? ==> e.w == 0)
    ensures Alone(Step(lib, p, e))
  {
    if !e.Act? {
      AloneAfterAnswer(lib, p, e);
    } else if e.w !in p.tasks {
      assert Step(lib, p, e) == p;
    } else if p.tasks[e.w].Check? && p.tasks[e.w].item < |p.heap| {
      AloneAfterCheck(lib, p, e.w);
    } else if p.tasks[e.w].Extend? && p.tasks[e.w].item < |p.heap| {
      AloneAfterExtend(lib, p, e.w);
    } else {
      AloneAfterOther(lib, p, e.w);
    }
  }

  lemma {:induction false} RunIsAlone(lib: Lib, now: int, events: seq<Event>)
    requires OnPool(events, 1)
    ensures Alone(Run(lib, Initial(now), events))
  {
    if events != [] {
      RunIsAlone(lib, now, events[..|events| - 1]);
      AloneStep(lib, Run(lib, Initial(now), events[..|events| - 1]), events[|events| - 1]);
    }
  }

  /** Each instant is at or after the expiry that the validations before it had given the entry. */
  ghost predicate EachWhenExpired(first: Entry, vs: seq<int>) {
    forall i :: 0 <= i < |vs| ==> ValidatedTimes(first, i).expire <= vs[i]
  }

  lemma AppliedWhenExpired(p: Proxy, e: Event, r: Ref)
    requires Alone(p) && Applies(p, e, r) && Checkable(p.heap[r])
    ensures p.heap[r].expire <= p.now
  {
    assert Waits(p.tasks[e.w], r);
  }

  ghost predicate DulyAccounted(lib: Lib, world: World, r: Ref, vs: seq<int>) {
    Accounted(lib, world, r, vs) && EachWhenExpired(Original(lib, world.trail[r]), vs)
  }

  lemma NextValidation(lib: Lib, world: World, e: Event, r: Ref, vs: seq<int>)
    requires |world.trail| == |world.proxy.heap| && Alone(world.proxy) && DulyAccounted(lib, world, r, vs)
    requires Checkable(world.proxy.heap[r])
    ensures DulyAccounted(lib, Next(lib, world, e), r,
                          vs + if Applies(world.proxy, e, r) then [world.proxy.now] else [])
  {
    AccountedStep(lib, world, e, r, vs);
    StepGrows(lib, world, e);
    if Applies(world.proxy, e, r) {
      AppliedWhenExpired(world.proxy, e, r);
    }
  }

  lemma {:induction false} ValidatedWhenExpired(lib: Lib, now: int, events: seq<Event>, r: Ref)
    requires OnPool(events, 1) && r < |Run(lib, Initial(now), events).heap|
    requires Checkable(Run(lib, Initial(now), events).heap[r])
    ensures DulyAccounted(lib, Story(lib, now, events), r, Validations(lib, Initial(now), events, r))
  {
    var earlier, e := events[..|events| - 1], events[|events| - 1];
    var before := Story(lib, now, earlier);
    StoryIsTheRun(lib, now, earlier);
    StoryIsTracked(lib, now, earlier);
    if r < |before.proxy.heap| {
      AppliedEntry(lib, before, e, r);
      ValidatedWhenExpired(lib, now, earlier, r);
      RunIsAlone(lib, now, earlier);
      NextValidation(lib, before, e, r, Validations(lib, Initial(now), earlier, r));
    } else {
      EntryIsValidated(lib, now, events, r);
      NoValidationsYet(lib, now, earlier, r);
    }
  }

  /** Over every run on one thread: an entry's expiry is its first one and a lifetime for each 304 applied to it; each
      was applied when the entry had expired, so the expiry is at most a lifetime after the last of them; and every
      hit is also one under the comment's rule, replayed on the very same 304s. */
  lemma SequentialRunRefinesComment(lib: Lib, now: int, events: seq<Event>, r: Ref)
    requires OnPool(events, 1) && r < |Run(lib, Initial(now), events).heap|
    ensures var world, vs := Story(lib, now, events), Validations(lib, Initial(now), events, r);
            && world.proxy == Run(lib, Initial(now), events) && Accounted(lib, world, r, vs)
            && var first, e := Original(lib, world.trail[r]), world.proxy.heap[r];
               && (Checkable(e) ==>
                     && e.expire == first.expire + |vs| * e.lifetime
                     && EachWhenExpired(first, vs)
                     && (vs != [] ==> e.expire <= vs[|vs| - 1] + e.lifetime))
               && forall t :: IsValid(e, t) ==> IsValid(CommentedAfter(first, vs), t)
  {
    EntryIsValidated(lib, now, events, r);
    var world, vs := Story(lib, now, events), Validations(lib, Initial(now), events, r);
    var first, e := Original(lib, world.trail[r]), world.proxy.heap[r];
    ExpiryAfter(first, |vs|);
    if Checkable(e) {
      ValidatedWhenExpired(lib, now, events, r);
      AccumulationRefinesComment(first, vs);
    }
  }
}
