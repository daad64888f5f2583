/** Numbering of requests by a counter that all connections share.

    A connection stamps a request with the counter and then increments it, holding a mutex that is its own: nothing
    keeps another connection out in between. Each of the two accesses to the counter is taken to be atomic. */
module RequestIds {

  type Connection = nat

  datatype Stamp = Stamp(from: Connection, id: int)

  /** `between` holds the connections that have stamped and not yet incremented. */
  datatype Numbering = Numbering(requestId: int, between: set<Connection>, stamps: seq<Stamp>)

  datatype Event = Stamps(c: Connection) | Increments(c: Connection)

  const INITIAL := Numbering(0, {}, [])

  function Step(n: Numbering, e: Event): Numbering {
    match e
    case Stamps(c) =>
      if c in n.between then n
      else n.(between := n.between + {c}, stamps := n.stamps + [Stamp(c, n.requestId)])
    case Increments(c) =>
      if c in n.between then n.(between := n.between - {c}, requestId := n.requestId + 1) else n
  }

  function Run(events: seq<Event>): Numbering {
    if events == [] then INITIAL else Step(Run(events[..|events| - 1]), events[|events| - 1])
  }

  /** Every stamp is accounted for by an increment, done or still to come; and within one connection the ids rise. */
  ghost predicate Consistent(n: Numbering) {
    && |n.stamps| == n.requestId + |n.between|
    && (forall i :: 0 <= i < |n.stamps| ==>
          n.stamps[i].id <= n.requestId && (n.stamps[i].from !in n.between ==> n.stamps[i].id < n.requestId))
    && forall i, j :: 0 <= i < j < |n.stamps| && n.stamps[i].from == n.stamps[j].from ==>
         n.stamps[i].id < n.stamps[j].id
  }

  lemma {:induction false} RunIsConsistent(events: seq<Event>)
    ensures Consistent(Run(events))
  {
    if events != [] {
      RunIsConsistent(events[..|events| - 1]);
    }
  }

  // ---- When ids are unique ----

  /** Some connection stamps while another is between its stamp and its increment. */
  ghost predicate Overlaps(events: seq<Event>) {
    exists i :: OverlapsAt(events, i)
  }

  ghost predicate OverlapsAt(events: seq<Event>, i: int) {
    0 <= i < |events| && events[i].Stamps? && Run(events[..i]).between - {events[i].c} != {}
    && events[i].c !in Run(events[..i]).between
  }

  ghost predicate Unique(n: Numbering) {
    forall i, j :: 0 <= i < j < |n.stamps| ==> n.stamps[i].id != n.stamps[j].id
  }

  lemma OverlapRemains(events: seq<Event>)
    requires |events| > 0
    ensures Overlaps(events) <==> Overlaps(events[..|events| - 1]) || OverlapsAt(events, |events| - 1)
  {
    var earlier := events[..|events| - 1];
    forall i | 0 <= i < |earlier| ensures OverlapsAt(earlier, i) <==> OverlapsAt(events, i) {
      assert earlier[..i] == events[..i];
    }
    if Overlaps(earlier) {
      var i :| OverlapsAt(earlier, i);
      assert OverlapsAt(events, i);
    }
    if Overlaps(events) {
      var i :| OverlapsAt(events, i);
      assert i < |earlier| ==> OverlapsAt(earlier, i);
    }
  }

  /** Without overlap the ids are 0, 1, 2, ... in the order of stamping, and at most one connection is in between. */
  lemma {:induction false} Consecutive(events: seq<Event>)
    requires !Overlaps(events)
    ensures var n := Run(events);
            && |n.between| <= 1 && n.requestId >= 0
            && |n.stamps| == n.requestId + |n.between|
            && forall i :: 0 <= i < |n.stamps| ==> n.stamps[i].id == i
  {
    if events != [] {
      var earlier, e := events[..|events| - 1], events[|events| - 1];
      OverlapRemains(events);
      Consecutive(earlier);
      RunIsConsistent(events);
      var n := Run(earlier);
      if e.Stamps? && e.c !in n.between {
        assert n.between - {e.c} == n.between;
        assert n.between == {};
      }
    }
  }

  lemma {:induction false} OverlapDuplicates(events: seq<Event>)
    requires Overlaps(events)
    ensures !Unique(Run(events))
  {
    if events != [] {
      var earlier, e := events[..|events| - 1], events[|events| - 1];
      OverlapRemains(events);
      if Overlaps(earlier) {
        OverlapDuplicates(earlier);
        DuplicatesRemain(Run(earlier), e);
      } else {
        Consecutive(earlier);
        var n := Run(earlier);
        assert OverlapsAt(events, |earlier|) && events[..|earlier|] == earlier;
        assert n.between != {};
        assert |n.between| == 1;
        var k := |n.stamps|;
        assert Run(events).stamps[k - 1].id == k - 1 == Run(events).stamps[k].id;
      }
    }
  }

  lemma DuplicatesRemain(n: Numbering, e: Event)
    requires !Unique(n)
    ensures !Unique(Step(n, e))
  {
    var i, j :| 0 <= i < j < |n.stamps| && n.stamps[i].id == n.stamps[j].id;
    assert Step(n, e).stamps[i] == n.stamps[i] && Step(n, e).stamps[j] == n.stamps[j];
  }

  /** For every run: the ids of all requests differ exactly when no two connections were ever between stamp and
      increment at the same time. The per-connection mutex does not see to that. */
  lemma UniqueIffNoOverlap(events: seq<Event>)
    ensures Unique(Run(events)) <==> !Overlaps(events)
  {
    if Overlaps(events) { OverlapDuplicates(events); } else { Consecutive(events); }
  }

  /** One connection on its own numbers its requests 0, 1, 2, ... */
  lemma AloneCountsUp(events: seq<Event>, c: Connection)
    requires forall i :: 0 <= i < |events| ==> events[i].c == c
    ensures var n := Run(events); forall i :: 0 <= i < |n.stamps| ==> n.stamps[i] == Stamp(c, i)
  {
    forall i | 0 <= i < |events| ensures !OverlapsAt(events, i) {
      OnlyBetween(events[..i], c);
    }
    Consecutive(events);
    OnlyBetween(events, c);
  }

  lemma {:induction false} OnlyBetween(events: seq<Event>, c: Connection)
    requires forall i :: 0 <= i < |events| ==> events[i].c == c
    ensures Run(events).between <= {c}
    ensures forall i :: 0 <= i < |Run(events).stamps| ==> Run(events).stamps[i].from == c
  {
    if events != [] {
      OnlyBetween(events[..|events| - 1], c);
    }
  }

  /** Two connections give their requests the same id. */
  lemma TwoConnectionsCollide()
    ensures Run([Stamps(0), Stamps(1)]).stamps == [Stamp(0, 0), Stamp(1, 0)]
  {
    var events := [Stamps(0), Stamps(1)];
    assert events[..1] == [Stamps(0)];
    assert [Stamps(0)][..0] == [];
    assert Run([]) == INITIAL && Run([Stamps(0)]) == Step(INITIAL, Stamps(0));
    assert Run(events) == Step(Run(events[..1]), Stamps(1));
  }
}
