/** What must have happened, in the same request, before an entry is replayed; and that a stale entry is not replayed
    until something of the kind does happen. Both are said of the events of a run. */
module Reuse {
  import opened Freshness
  import opened Proxy
  import opened CacheInvariant

  // ---- Every replay is warranted ----

  /** Event `j` is worker `w`'s freshness check of `item` for this request, and the entry passes it. */
  ghost predicate FoundFresh(lib: Lib, now: int, events: seq<Event>, j: nat, w: Worker, req: Request, start: int,
                             item: Ref, checked: int)
  {
    && j < |events| && events[j] == Act(w)
    && var p := Run(lib, Initial(now), events[..j]);
       && w in p.tasks && p.tasks[w] == Check(req, start, item)
       && item < |p.heap| && p.now == checked && IsValid(p.heap[item], checked)
  }

  /** Event `j` is the origin's 304 to worker `w`, who asks about `item` for this request. */
  ghost predicate WasConfirmed(lib: Lib, now: int, events: seq<Event>, j: nat, w: Worker, req: Request, start: int,
                               item: Ref, checked: int, at: int)
  {
    && j < |events| && events[j] == PingAnswer(w, NOT_MODIFIED)
    && var p := Run(lib, Initial(now), events[..j]);
       w in p.tasks && p.tasks[w] == Ping(req, start, item, checked) && p.now == at
  }

  /** Worker `w` has been busy from event `j` on; so it is still at the same request. */
  ghost predicate BusySince(lib: Lib, now: int, events: seq<Event>, j: nat, w: Worker) {
    forall m :: j < m <= |events| ==> w in Run(lib, Initial(now), events[..m]).tasks
  }

  /** Event `j` is what the warrant claims. */
  ghost predicate Grants(lib: Lib, now: int, events: seq<Event>, j: nat, w: Worker, req: Request, start: int,
                         item: Ref, checked: int, warrant: Warrant)
  {
    && BusySince(lib, now, events, j, w)
    && match warrant
       case Fresh => FoundFresh(lib, now, events, j, w, req, start, item, checked)
       case Confirmed(at) => WasConfirmed(lib, now, events, j, w, req, start, item, checked, at)
  }

  ghost predicate Granted(lib: Lib, now: int, events: seq<Event>, w: Worker, req: Request, start: int, item: Ref,
                          checked: int, warrant: Warrant)
  {
    exists j :: Grants(lib, now, events, j, w, req, start, item, checked, warrant)
  }

  ghost predicate TaskGranted(lib: Lib, now: int, events: seq<Event>, w: Worker, task: Task) {
    match task
    case Extend(req, start, item, checked, at) =>
      Granted(lib, now, events, w, req, start, item, checked, Confirmed(at))
    case Replay(req, start, item, checked, warrant) => Granted(lib, now, events, w, req, start, item, checked, warrant)
    case _ => true
  }

  lemma GrantedLonger(lib: Lib, now: int, events: seq<Event>, w: Worker, req: Request, start: int, item: Ref,
                      checked: int, warrant: Warrant)
    requires |events| > 0 && w in Run(lib, Initial(now), events).tasks
    requires Granted(lib, now, events[..|events| - 1], w, req, start, item, checked, warrant)
    ensures Granted(lib, now, events, w, req, start, item, checked, warrant)
  {
    var earlier := events[..|events| - 1];
    var j: nat :| Grants(lib, now, earlier, j, w, req, start, item, checked, warrant);
    forall m | j < m <= |events| ensures w in Run(lib, Initial(now), events[..m]).tasks {
      if m < |events| {
        assert earlier[..m] == events[..m];
      } else {
        assert events[..m] == events;
      }
    }
    assert earlier[..j] == events[..j];
    assert Grants(lib, now, events, j, w, req, start, item, checked, warrant);
  }

  lemma GrantedNow(lib: Lib, now: int, events: seq<Event>, w: Worker, req: Request, start: int, item: Ref,
                   checked: int, warrant: Warrant)
    requires |events| > 0 && w in Run(lib, Initial(now), events).tasks
    requires var j := |events| - 1;
             match warrant
             case Fresh => FoundFresh(lib, now, events, j, w, req, start, item, checked)
             case Confirmed(at) => WasConfirmed(lib, now, events, j, w, req, start, item, checked, at)
    ensures Granted(lib, now, events, w, req, start, item, checked, warrant)
  {
    assert events[..|events|] == events;
    assert Grants(lib, now, events, |events| - 1, w, req, start, item, checked, warrant);
  }

  /** The ways of worker `w` into a task that needs a warrant; `p` and `q` are the states around event `e`. */
  ghost predicate EntersDuly(p: Proxy, e: Event, q: Proxy, w: Worker)
    requires w in q.tasks
  {
    var task := q.tasks[w];
    (task.Extend? || task.Replay?) && !(w in p.tasks && p.tasks[w] == task) ==>
      && w in p.tasks
      && match p.tasks[w]
         case Check(req, start, item) =>
           && e == Act(w) && item < |p.heap| && IsValid(p.heap[item], p.now)
           && task == Replay(req, start, item, p.now, Fresh)
         case Ping(req, start, item, checked) =>
           e == PingAnswer(w, NOT_MODIFIED) && task == Extend(req, start, item, checked, p.now)
         case Extend(req, start, item, checked, at) =>
           e == Act(w) && task == Replay(req, start, item, checked, Confirmed(at))
         case _ => false
  }

  lemma ActsDuly(lib: Lib, p: Proxy, w: Worker)
    requires w in Step(lib, p, Act(w)).tasks
    ensures EntersDuly(p, Act(w), Step(lib, p, Act(w)), w)
  {
  }

  lemma IsAnsweredDuly(lib: Lib, p: Proxy, e: Event)
    requires (e.PingAnswer? || e.FetchAnswer? || e.Begin?) && e.w in Step(lib, p, e).tasks
    ensures EntersDuly(p, e, Step(lib, p, e), e.w)
  {
  }

  lemma NewlyGranted(lib: Lib, p: Proxy, e: Event, w: Worker)
    requires w in Step(lib, p, e).tasks
    ensures EntersDuly(p, e, Step(lib, p, e), w)
  {
    if e == Act(w) {
      ActsDuly(lib, p, w);
    } else if (e.PingAnswer? || e.FetchAnswer? || e.Begin?) && e.w == w {
      IsAnsweredDuly(lib, p, e);
    } else {
      BystandersStay(lib, p, e, w);
    }
  }

  lemma {:induction false} TasksAreGranted(lib: Lib, now: int, events: seq<Event>, w: Worker)
    requires w in Run(lib, Initial(now), events).tasks
    ensures TaskGranted(lib, now, events, w, Run(lib, Initial(now), events).tasks[w])
  {
    if events != [] {
      var n := |events| - 1;
      var p := Run(lib, Initial(now), events[..n]);
      var task := Step(lib, p, events[n]).tasks[w];
      NewlyGranted(lib, p, events[n], w);
      if w in p.tasks {
        TasksAreGranted(lib, now, events[..n], w);
      }
      if task.Extend? || task.Replay? {
        match p.tasks[w]
        case Check(req, start, item) => GrantedNow(lib, now, events, w, req, start, item, p.now, Fresh);
        case Ping(req, start, item, checked) =>
          GrantedNow(lib, now, events, w, req, start, item, checked, Confirmed(p.now));
        case Extend(req, start, item, checked, at) =>
          GrantedLonger(lib, now, events, w, req, start, item, checked, Confirmed(at));
        case Replay(req, start, item, checked, warrant) =>
          GrantedLonger(lib, now, events, w, req, start, item, checked, warrant);
      }
    }
  }

  // ---- From tasks to replies ----

  /** Event `k` is worker `w` giving reply number `i`. */
  ghost predicate Gives(lib: Lib, now: int, events: seq<Event>, k: nat, w: Worker, i: nat, reply: Reply) {
    && reply.source.FromCache? && k < |events| && events[k] == Act(w)
    && var p := Run(lib, Initial(now), events[..k]);
       && |p.replies| == i && w in p.tasks && p.now == reply.at
       && p.tasks[w] == Replay(reply.req, reply.start, reply.source.item, reply.source.checked, reply.source.warrant)
  }

  lemma NewReplyIsGiven(lib: Lib, p: Proxy, e: Event)
    requires |Step(lib, p, e).replies| > |p.replies| && Step(lib, p, e).replies[|p.replies|].source.FromCache?
    ensures var reply := Step(lib, p, e).replies[|p.replies|]; var source := reply.source;
            && e.Act? && e.w in p.tasks && p.now == reply.at
            && p.tasks[e.w] == Replay(reply.req, reply.start, source.item, source.checked, source.warrant)
  {
  }

  lemma {:induction false} ReplyWasGiven(lib: Lib, now: int, events: seq<Event>, i: nat) returns (k: nat, w: Worker)
    requires i < |Run(lib, Initial(now), events).replies|
    requires Run(lib, Initial(now), events).replies[i].source.FromCache?
    ensures Gives(lib, now, events, k, w, i, Run(lib, Initial(now), events).replies[i])
  {
    var n := |events| - 1;
    var p, e := Run(lib, Initial(now), events[..n]), events[n];
    RepliesGrow(lib, p, e);
    if i < |p.replies| {
      k, w := ReplyWasGiven(lib, now, events[..n], i);
      assert events[..n][..k] == events[..k];
    } else {
      NewReplyIsGiven(lib, p, e);
      k, w := n, e.w;
    }
  }

  /** In one and the same request of worker `w`, event `j` granted the warrant and the later event `k` used it. */
  ghost predicate Warranted(lib: Lib, now: int, events: seq<Event>, j: nat, k: nat, w: Worker, i: nat, reply: Reply) {
    && Gives(lib, now, events, k, w, i, reply) && j < k
    && Grants(lib, now, events[..k], j, w, reply.req, reply.start, reply.source.item, reply.source.checked,
              reply.source.warrant)
  }

  /** Every reply from the cache was warranted within its own request: the worker that gave it had, at this very
      request, checked the entry and found it valid at that instant, or received the origin's 304 to its question
      about it. A no-cache entry, or one without lifetime, always needs the 304, and one without a validator is only
      ever replayed fresh. */
  lemma ReuseIsWarranted(lib: Lib, now: int, events: seq<Event>, i: nat)
    requires i < |Run(lib, Initial(now), events).replies|
    requires Run(lib, Initial(now), events).replies[i].source.FromCache?
    ensures var p := Run(lib, Initial(now), events); var reply := p.replies[i]; var source := reply.source;
            && (exists j, k, w :: Warranted(lib, now, events, j, k, w, i, reply))
            && source.item < |p.heap| && reply.req.verb == "GET"
            && var e := p.heap[source.item];
               && reply.status == e.response.status && reply.body == e.body
               && reply.start <= source.checked <= reply.at
               && (e.noCache || Seconds(e.lifetime) == -1 ==> source.warrant.Confirmed?)
               && (ItemValidator(e).None? ==> source.warrant.Fresh?)
               && (source.warrant.Confirmed? ==> source.checked <= source.warrant.at <= reply.at)
  {
    StoryIsTheRun(lib, now, events);
    StoryIsTracked(lib, now, events);
    assert ReplyOk(Story(lib, now, events), Story(lib, now, events).proxy.replies[i]);
    var reply := Run(lib, Initial(now), events).replies[i];
    var k, w := ReplyWasGiven(lib, now, events, i);
    TasksAreGranted(lib, now, events[..k], w);
    var j: nat :| Grants(lib, now, events[..k], j, w, reply.req, reply.start, reply.source.item, reply.source.checked,
                    reply.source.warrant);
    assert Warranted(lib, now, events, j, k, w, i, reply);
  }

  // ---- Without a 304 ----

  /** The event is a 304 for entry `r`. */
  predicate ConfirmsItem(p: Proxy, e: Event, r: Ref) {
    e.PingAnswer? && e.status == NOT_MODIFIED && e.w in p.tasks && p.tasks[e.w].Ping? && p.tasks[e.w].item == r
  }

  ghost predicate NotExtending(p: Proxy, r: Ref) {
    forall w :: w in p.tasks && p.tasks[w].Extend? ==> p.tasks[w].item != r
  }

  predicate Replays(task: Task, r: Ref) {
    task.Replay? && task.item == r
  }

  /** The reply is the one worker `w` was about to give in `p`. */
  predicate AlreadyDue(p: Proxy, w: Worker, reply: Reply) {
    && w in p.tasks && reply.source.FromCache?
    && p.tasks[w] == Replay(reply.req, reply.start, reply.source.item, reply.source.checked, reply.source.warrant)
  }

  /** Nothing about entry `r` has become replayable since `p`: it is as it was and still stale, the workers that
      replay it already did so then, and so did those that have meanwhile replied from it. */
  ghost predicate Dormant(p: Proxy, q: Proxy, r: Ref) {
    && r < |p.heap| <= |q.heap| && q.heap[r] == p.heap[r] && p.now <= q.now && !IsValid(q.heap[r], q.now)
    && NotExtending(q, r)
    && (forall w :: w in q.tasks && Replays(q.tasks[w], r) ==> w in p.tasks && p.tasks[w] == q.tasks[w])
    && |p.replies| <= |q.replies|
    && forall i :: |p.replies| <= i < |q.replies| && q.replies[i].source.FromCache? && q.replies[i].source.item == r ==>
         exists w :: AlreadyDue(p, w, q.replies[i])
  }

  lemma StaleEntryStep(lib: Lib, p: Proxy, e: Event, r: Ref)
    requires r < |p.heap| && !IsValid(p.heap[r], p.now) && NotExtending(p, r) && !ConfirmsItem(p, e, r)
    ensures var q := Step(lib, p, e);
            r < |q.heap| && |p.heap| <= |q.heap| && q.heap[r] == p.heap[r] && p.now <= q.now
  {
  }

  lemma StaleTaskStep(lib: Lib, p: Proxy, e: Event, r: Ref, w: Worker)
    requires r < |p.heap| && !IsValid(p.heap[r], p.now) && NotExtending(p, r) && !ConfirmsItem(p, e, r)
    requires w in Step(lib, p, e).tasks
    ensures var task := Step(lib, p, e).tasks[w];
            && (task.Extend? ==> task.item != r)
            && (Replays(task, r) ==> w in p.tasks && p.tasks[w] == task)
  {
    NewlyGranted(lib, p, e, w);
  }

  lemma DormantStep(lib: Lib, p: Proxy, q: Proxy, e: Event, r: Ref)
    requires Dormant(p, q, r) && !ConfirmsItem(q, e, r)
    ensures Dormant(p, Step(lib, q, e), r)
  {
    var next := Step(lib, q, e);
    StaleEntryStep(lib, q, e, r);
    forall w | w in next.tasks
      ensures (next.tasks[w].Extend? ==> next.tasks[w].item != r)
      ensures Replays(next.tasks[w], r) ==> w in q.tasks && q.tasks[w] == next.tasks[w]
    {
      StaleTaskStep(lib, q, e, r, w);
    }
    RepliesGrow(lib, q, e);
    forall i | && |p.replies| <= i < |next.replies|
               && next.replies[i].source.FromCache? && next.replies[i].source.item == r
      ensures exists w :: AlreadyDue(p, w, next.replies[i])
    {
      if i < |q.replies| {
        var w :| AlreadyDue(p, w, q.replies[i]);
        assert AlreadyDue(p, w, next.replies[i]);
      } else {
        NewReplyIsGiven(lib, q, e);
        assert AlreadyDue(p, e.w, next.replies[i]);
      }
    }
  }

  /** Once stale, an entry stays stale and unchanged until it is confirmed by a 304 of its own, whatever happens to
      all other entries; and no request whose check comes after that point is answered from it. In particular a stale
      entry that an uncacheable refetch leaves in the map is not replayed. */
  lemma {:induction false} StaleStaysStale(lib: Lib, p: Proxy, events: seq<Event>, r: Ref)
    requires r < |p.heap| && !IsValid(p.heap[r], p.now) && NotExtending(p, r)
    requires forall i :: 0 <= i < |events| ==> !ConfirmsItem(Run(lib, p, events[..i]), events[i], r)
    ensures Dormant(p, Run(lib, p, events), r)
  {
    if events != [] {
      var n := |events| - 1;
      var earlier := events[..n];
      forall i | 0 <= i < n ensures !ConfirmsItem(Run(lib, p, earlier[..i]), earlier[i], r) {
        assert earlier[..i] == events[..i];
      }
      StaleStaysStale(lib, p, earlier, r);
      DormantStep(lib, p, Run(lib, p, earlier), events[n], r);
    }
  }
}
