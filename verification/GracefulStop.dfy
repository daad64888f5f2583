/** Stopping the server while a connection is serving requests: `run` and `onServerStopped` of one connection. */
module GracefulStop {
  /** Where the connection's thread is: reading _stopped at the loop head, in hasMoreRequests, waiting for _mutex,
      about to read _stopped under it, serving one request (or a whole tunnel) under it, answering a malformed request
      with 400, which happens after unwinding has released the mutex, or gone. */
  datatype Loop = Head | Poll | Wait | Inner | Serve | Reject | Gone

  /** How a request, or the 400 to it, ends: the loop goes on, a malformed message was caught, or another exception
      ends the loop. */
  datatype Outcome = GoesOn | Malformed | Throws

  /** Where the server's thread is in onServerStopped: not called or returned, about to shut down without the mutex,
      waiting for it, about to shut down under it, or about to release it. */
  datatype Stopper = Idle | Abort | WaitLock | Shut | Release

  datatype Owner = Free | ByLoop | ByStopper

  datatype State = State(stopped: bool, mutex: Owner, loop: Loop, stopper: Stopper, socketDown: bool)

  datatype Event =
    | Called(abortCurrent: bool)
    | StopperRuns
    | LoopRuns(outcome: Outcome)

  const INITIAL := State(false, Free, Head, Idle, false)

  /** In hasMoreRequests, the loop goes on if there is another request. */
  function LoopStep(s: State, outcome: Outcome): State {
    match s.loop
    case Head => s.(loop := if s.stopped then Gone else Poll)
    case Poll => s.(loop := if outcome == GoesOn then Wait else Gone)
    case Wait => if s.mutex == Free then s.(mutex := ByLoop, loop := Inner) else s
    case Inner => if s.stopped then s.(mutex := Free, loop := Head) else s.(loop := Serve)
    case Serve =>
      s.(mutex := Free, loop := match outcome case GoesOn => Head case Malformed => Reject case Throws => Gone)
    case Reject => s.(loop := if outcome == GoesOn then Head else Gone)
    case Gone => s
  }

  function StopperStep(s: State): State {
    match s.stopper
    case Idle => s
    case Abort => s.(socketDown := true, stopper := Idle)
    case WaitLock => if s.mutex == Free then s.(mutex := ByStopper, stopper := Shut) else s
    case Shut => s.(socketDown := true, stopper := Release)
    case Release => s.(mutex := Free, stopper := Idle)
  }

  function Step(s: State, e: Event): State {
    match e
    case Called(abortCurrent) =>
      if s.stopper == Idle then s.(stopped := true, stopper := if abortCurrent then Abort else WaitLock) else s
    case StopperRuns => StopperStep(s)
    case LoopRuns(outcome) => LoopStep(s, outcome)
  }

  function Run(s: State, events: seq<Event>): State {
    if events == [] then s else Step(Run(s, events[..|events| - 1]), events[|events| - 1])
  }

  ghost predicate Graceful(events: seq<Event>) {
    forall i :: 0 <= i < |events| && events[i].Called? ==> !events[i].abortCurrent
  }

  /** The mutex is held by whoever is in its critical section, the stopper only runs with the flag set, and without an
      abort the socket only goes down under the mutex. */
  ghost predicate Consistent(s: State) {
    && (s.mutex == ByLoop <==> s.loop in {Inner, Serve})
    && (s.mutex == ByStopper <==> s.stopper in {Shut, Release})
    && (s.stopper != Idle || s.socketDown ==> s.stopped)
    && s.stopper != Abort
    && (s.socketDown ==> s.loop != Serve)
  }

  lemma {:induction false} GracefulRunIsConsistent(events: seq<Event>)
    requires Graceful(events)
    ensures Consistent(Run(INITIAL, events))
  {
    if events != [] {
      GracefulRunIsConsistent(events[..|events| - 1]);
    }
  }

  /** However a graceful stop interleaves with the loop: while a request or tunnel is being served the socket is
      neither down nor about to be shut down, and once it is down no request is ever served again. */
  lemma ShutdownNeverOverlapsService(events: seq<Event>)
    requires Graceful(events) && Run(INITIAL, events).loop == Serve
    ensures var s := Run(INITIAL, events); !s.socketDown && s.stopper != Shut && !StopperStep(s).socketDown
  {
    GracefulRunIsConsistent(events);
  }

  /** The loop is writing to the socket. */
  predicate Writes(loop: Loop) {
    loop in {Serve, Reject}
  }

  /** The socket is down or the stopping thread is about to take it down. */
  predicate GoingDown(s: State) {
    s.socketDown || s.stopper in {Shut, Abort}
  }

  /** The one write that a graceful shutdown can meet is the 400 to a malformed request. */
  lemma OnlyRejectionOverlaps(events: seq<Event>)
    requires Graceful(events) && Writes(Run(INITIAL, events).loop) && GoingDown(Run(INITIAL, events))
    ensures Run(INITIAL, events).loop == Reject
  {
    GracefulRunIsConsistent(events);
  }

  /** And it can meet it, since that reply is sent without the mutex. */
  lemma RejectionCanOverlap()
    ensures exists events ::
              Graceful(events) && Run(INITIAL, events).loop == Reject && Run(INITIAL, events).socketDown
  {
    var a := [LoopRuns(GoesOn)];
    var b := a + [LoopRuns(GoesOn)];
    var c := b + [LoopRuns(GoesOn)];
    var d := c + [LoopRuns(GoesOn)];
    var e := d + [LoopRuns(Malformed)];
    var f := e + [Called(false)];
    var g := f + [StopperRuns];
    var h := g + [StopperRuns];
    assert a[..0] == [] && b[..1] == a && c[..2] == b && d[..3] == c && e[..4] == d;
    assert f[..5] == e && g[..6] == f && h[..7] == g;
    assert Run(INITIAL, a).loop == Poll;
    assert Run(INITIAL, b).loop == Wait && Run(INITIAL, b).mutex == Free;
    assert Run(INITIAL, c).loop == Inner && !Run(INITIAL, c).stopped;
    assert Run(INITIAL, d).loop == Serve;
    assert Run(INITIAL, e) == State(false, Free, Reject, Idle, false);
    assert Run(INITIAL, f).stopper == WaitLock && Run(INITIAL, f).loop == Reject;
    assert Run(INITIAL, g).stopper == Shut;
    assert Run(INITIAL, h).loop == Reject && Run(INITIAL, h).socketDown;
  }

  /** The steps from the end of one request, well-formed or not, to the service of the next. */
  function NextRequest(outcome: Outcome): seq<Event> {
    [LoopRuns(outcome)] + (if outcome == Malformed then [LoopRuns(GoesOn)] else [])
    + [LoopRuns(GoesOn)] + [LoopRuns(GoesOn)] + [LoopRuns(GoesOn)] + [LoopRuns(GoesOn)]
  }

  lemma RunAppend(s: State, events: seq<Event>, e: Event)
    ensures Run(s, events + [e]) == Step(Run(s, events), e)
  {
    assert (events + [e])[..|events|] == events;
  }

  /** A connection that has not been stopped serves on: after each request, also a malformed one, the next is served,
      and only an exception of another kind ends it. */
  lemma ServesOn(events: seq<Event>, outcome: Outcome)
    requires Graceful(events) && Run(INITIAL, events).loop == Serve && !Run(INITIAL, events).stopped
    ensures outcome != Throws ==> Run(INITIAL, events + NextRequest(outcome)).loop == Serve
    ensures Run(INITIAL, events + [LoopRuns(Throws)]).loop == Gone
  {
    GracefulRunIsConsistent(events);
    RunAppend(INITIAL, events, LoopRuns(Throws));
    if outcome != Throws {
      ReachesNext(events, outcome);
    }
  }

  /** Four steps take the loop from its head to the service of a request. */
  lemma HeadToServe(events: seq<Event>)
    requires var s := Run(INITIAL, events); s.loop == Head && !s.stopped && s.mutex == Free
    ensures var go := LoopRuns(GoesOn); Run(INITIAL, events + [go] + [go] + [go] + [go]).loop == Serve
  {
    var go := LoopRuns(GoesOn);
    RunAppend(INITIAL, events, go);
    RunAppend(INITIAL, events + [go], go);
    RunAppend(INITIAL, events + [go] + [go], go);
    RunAppend(INITIAL, events + [go] + [go] + [go], go);
  }

  lemma ReachesNext(events: seq<Event>, outcome: Outcome)
    requires Consistent(Run(INITIAL, events)) && outcome != Throws
    requires Run(INITIAL, events).loop == Serve && !Run(INITIAL, events).stopped
    ensures Run(INITIAL, events + NextRequest(outcome)).loop == Serve
  {
    var go := LoopRuns(GoesOn);
    var a := events + [LoopRuns(outcome)];
    RunAppend(INITIAL, events, LoopRuns(outcome));
    if outcome == Malformed {
      RunAppend(INITIAL, a, go);
      HeadToServe(a + [go]);
      assert events + NextRequest(outcome) == a + [go] + [go] + [go] + [go] + [go];
    } else {
      HeadToServe(a);
      assert events + NextRequest(outcome) == a + [go] + [go] + [go] + [go];
    }
  }

  /** And the first request of a connection that is never stopped is served. */
  lemma ServesFirst()
    ensures var go := LoopRuns(GoesOn); Run(INITIAL, [go, go, go, go]).loop == Serve
  {
    var go := LoopRuns(GoesOn);
    HeadToServe([]);
    assert [] + [go] + [go] + [go] + [go] == [go, go, go, go];
  }

  /** A stop of either kind sets the flag, for good, whatever is going on. */
  lemma {:induction false} StopIsSignalled(events: seq<Event>)
    ensures Run(INITIAL, events).stopper != Idle ==> Run(INITIAL, events).stopped
    ensures Run(INITIAL, events).stopped <==> exists i :: 0 <= i < |events| && events[i].Called?
  {
    if events != [] {
      var earlier, e := events[..|events| - 1], events[|events| - 1];
      StopIsSignalled(earlier);
      assert forall i :: 0 <= i < |earlier| ==> earlier[i] == events[i];
      if e.Called? {
        assert events[|earlier|].Called?;
      }
    }
  }

  /** Once the flag is set no request begins: one that is being served at the end has been served all along. */
  lemma {:induction false} NoRequestBegins(s: State, events: seq<Event>, k: nat)
    requires s.stopped && k <= |events| && Run(s, events).loop == Serve
    ensures Run(s, events[..k]).stopped && Run(s, events[..k]).loop == Serve
  {
    StoppedStays(s, events[..k]);
    if k < |events| {
      var earlier := events[..|events| - 1];
      StoppedStays(s, earlier);
      NoRequestBegins(s, earlier, k);
      assert earlier[..k] == events[..k];
    } else {
      assert events[..k] == events;
    }
  }

  lemma {:induction false} StoppedStays(s: State, events: seq<Event>)
    requires s.stopped
    ensures Run(s, events).stopped
  {
    if events != [] {
      StoppedStays(s, events[..|events| - 1]);
    }
  }

  /** How many more steps of its own the loop can take once the flag is set. */
  function StepsLeft(loop: Loop): nat {
    match loop
    case Poll => 4
    case Wait => 3
    case Inner => 2
    case Serve => 3
    case Reject => 2
    case Head => 1
    case Gone => 0
  }

  function OwnSteps(s: State, events: seq<Event>): nat {
    if events == [] then 0
    else
      var before := Run(s, events[..|events| - 1]);
      OwnSteps(s, events[..|events| - 1]) + if Step(before, events[|events| - 1]).loop != before.loop then 1 else 0
  }

  /** The loop winds down: after the flag is set it moves at most four times, in any interleaving. */
  lemma {:induction false} LoopWindsDown(s: State, events: seq<Event>)
    requires s.stopped
    ensures OwnSteps(s, events) + StepsLeft(Run(s, events).loop) <= StepsLeft(s.loop) <= 4
  {
    if events != [] {
      LoopWindsDown(s, events[..|events| - 1]);
      StoppedStays(s, events[..|events| - 1]);
    }
  }

  /** It is never stuck either: in any graceful run the mutex it waits for is free or its holder can release it. */
  lemma NoDeadlock(events: seq<Event>)
    requires Graceful(events)
    ensures var s := Run(INITIAL, events);
            && (s.loop == Wait ==>
                  LoopStep(s, GoesOn).loop == Inner || LoopStep(StopperStep(s), GoesOn).loop == Inner
                  || LoopStep(StopperStep(StopperStep(s)), GoesOn).loop == Inner)
            && (s.stopper == WaitLock ==> s.mutex == Free || s.loop in {Inner, Serve})
  {
    GracefulRunIsConsistent(events);
  }

  /** An aborting stop does shut the socket down under a request being served. */
  lemma AbortInterruptsService()
    ensures exists events :: Run(INITIAL, events).loop == Serve && Run(INITIAL, events).socketDown
  {
    var a := [LoopRuns(GoesOn)];
    var b := a + [LoopRuns(GoesOn)];
    var c := b + [LoopRuns(GoesOn)];
    var d := c + [LoopRuns(GoesOn)];
    var e := d + [Called(true)];
    var f := e + [StopperRuns];
    assert a[..0] == [] && b[..1] == a && c[..2] == b && d[..3] == c && e[..4] == d && f[..5] == e;
    assert Run(INITIAL, a).loop == Poll;
    assert Run(INITIAL, b).loop == Wait && Run(INITIAL, b).mutex == Free;
    assert Run(INITIAL, c).loop == Inner && !Run(INITIAL, c).stopped;
    assert Run(INITIAL, d).loop == Serve;
    assert Run(INITIAL, e).stopper == Abort && Run(INITIAL, e).loop == Serve;
    assert Run(INITIAL, f).loop == Serve && Run(INITIAL, f).socketDown;
  }
}
