/** The CONNECT tunnel: two threads, each running the same loop in one direction.

    `DestinationRelay::run` and `relayClientData` differ only in which socket they read and which they write. Sending
    is taken to send the whole chunk or throw. */
module Tunnel {
  import opened Wrappers

  type Byte = bv8

  datatype Write = Sent | TimedOut | SendThrew

  /** What the sockets do in one round of the loop; an empty chunk is the peer's close. */
  datatype Round = NothingToRead | ReadThrew | Received(chunk: seq<Byte>, write: Write)

  predicate Closes(r: Round) {
    r.ReadThrew? || (r.Received? && (r.chunk == [] || r.write == SendThrew))
  }

  predicate Forwards(r: Round) {
    r.Received? && r.chunk != [] && r.write == Sent
  }

  /** The rounds that are run: up to the first that closes the loop. */
  function Executed(rounds: seq<Round>): seq<Round> {
    if rounds == [] then []
    else if Closes(rounds[0]) then [rounds[0]]
    else [rounds[0]] + Executed(rounds[1..])
  }

  predicate StillOpen(rounds: seq<Round>) {
    forall i :: 0 <= i < |rounds| ==> !Closes(rounds[i])
  }

  function ReceivedChunks(rounds: seq<Round>): seq<seq<Byte>> {
    if rounds == [] then []
    else (if rounds[0].Received? && rounds[0].chunk != [] then [rounds[0].chunk] else []) + ReceivedChunks(rounds[1..])
  }

  function ForwardedChunks(rounds: seq<Round>): seq<seq<Byte>> {
    if rounds == [] then []
    else (if Forwards(rounds[0]) then [rounds[0].chunk] else []) + ForwardedChunks(rounds[1..])
  }

  function Concat(chunks: seq<seq<Byte>>): seq<Byte> {
    if chunks == [] then [] else chunks[0] + Concat(chunks[1..])
  }

  /** What the loop delivers to its output, and what it took from its input. */
  function Output(rounds: seq<Round>): seq<Byte> {
    Concat(ForwardedChunks(Executed(rounds)))
  }

  function Input(rounds: seq<Round>): seq<Byte> {
    Concat(ReceivedChunks(Executed(rounds)))
  }

  class OutputSocket {
    var delivered: seq<Byte>

    constructor ()
      ensures delivered == []
    {
      delivered := [];
    }

    method SendBytes(bytes: seq<Byte>)
      modifies this
      ensures delivered == old(delivered) + bytes
    {
      delivered := delivered + bytes;
    }
  }

  /** The loop, as far as the given rounds take it. */
  method Relay(rounds: seq<Round>, out: OutputSocket) returns (isOpen: bool)
    modifies out
    ensures out.delivered == old(out.delivered) + Output(rounds)
    ensures isOpen == StillOpen(rounds)
  {
    isOpen := true;
    var i := 0;
    while isOpen && i < |rounds|
      invariant 0 <= i <= |rounds|
      invariant isOpen == StillOpen(rounds[..i])
      invariant out.delivered == old(out.delivered) + Output(rounds[..i])
    {
      var round := rounds[i];
      OutputGrows(rounds[..i], round);
      assert rounds[..i + 1] == rounds[..i] + [round];
      if round.Received? && round.chunk != [] && round.write == Sent {
        out.SendBytes(round.chunk);
      }
      isOpen := !(round.ReadThrew? || (round.Received? && (round.chunk == [] || round.write == SendThrew)));
      i := i + 1;
    }
    assert rounds == rounds[..i] + rounds[i..];
    if !isOpen {
      NothingAfterClose(rounds[..i], rounds[i..]);
    } else {
      assert rounds[..i] == rounds;
    }
  }

  lemma {:induction false} NothingAfterClose(rounds: seq<Round>, later: seq<Round>)
    requires !StillOpen(rounds)
    ensures Executed(rounds + later) == Executed(rounds)
  {
    assert (rounds + later)[1..] == rounds[1..] + later;
    if !Closes(rounds[0]) {
      NothingAfterClose(rounds[1..], later);
    }
  }

  lemma ForwardedFirst(round: Round, rest: seq<Round>)
    ensures Concat(ForwardedChunks([round] + rest))
            == (if Forwards(round) then round.chunk else []) + Concat(ForwardedChunks(rest))
  {
    assert ([round] + rest)[1..] == rest;
    assert ForwardedChunks([round] + rest) == (if Forwards(round) then [round.chunk] else []) + ForwardedChunks(rest);
    if Forwards(round) {
      assert ([round.chunk] + ForwardedChunks(rest))[1..] == ForwardedChunks(rest);
    } else {
      assert [] + ForwardedChunks(rest) == ForwardedChunks(rest);
    }
  }

  // ---- What reaches the other side ----

  ghost predicate Subsequence<T>(s: seq<T>, t: seq<T>) {
    if s == [] then true
    else t != [] && ((s[0] == t[0] && Subsequence(s[1..], t[1..])) || Subsequence(s, t[1..]))
  }

  /** Delivered is, in order, a selection of whole chunks of what was received. */
  lemma {:induction false} WholeChunksInOrder(rounds: seq<Round>)
    ensures Subsequence(ForwardedChunks(rounds), ReceivedChunks(rounds))
    ensures |ForwardedChunks(rounds)| <= |ReceivedChunks(rounds)|
  {
    if rounds != [] {
      WholeChunksInOrder(rounds[1..]);
      var s, t := ForwardedChunks(rounds), ReceivedChunks(rounds);
      if Forwards(rounds[0]) {
        assert s[1..] == ForwardedChunks(rounds[1..]) && t[1..] == ReceivedChunks(rounds[1..]);
      } else {
        assert s == ForwardedChunks(rounds[1..]);
        assert rounds[0].Received? && rounds[0].chunk != [] ==> t[1..] == ReceivedChunks(rounds[1..]);
        assert !(rounds[0].Received? && rounds[0].chunk != []) ==> t == ReceivedChunks(rounds[1..]);
      }
    }
  }

  /** Every nonempty chunk received was also sent. */
  predicate NothingDropped(rounds: seq<Round>) {
    forall i :: 0 <= i < |rounds| ==> Forwards(rounds[i]) || !rounds[i].Received? || rounds[i].chunk == []
  }

  lemma {:induction false} LengthsOf(rounds: seq<Round>)
    ensures |Concat(ForwardedChunks(rounds))| <= |Concat(ReceivedChunks(rounds))|
    ensures |Concat(ForwardedChunks(rounds))| == |Concat(ReceivedChunks(rounds))| ==> NothingDropped(rounds)
    ensures NothingDropped(rounds) ==> Concat(ForwardedChunks(rounds)) == Concat(ReceivedChunks(rounds))
  {
    if rounds != [] {
      var first, rest := rounds[0], rounds[1..];
      LengthsOf(rest);
      assert rounds == [first] + rest;
      ForwardedFirst(first, rest);
      ReceivedFirst(first, rest);
      assert NothingDropped(rounds)
             <==> (Forwards(first) || !first.Received? || first.chunk == []) && NothingDropped(rest);
    }
  }

  lemma ReceivedFirst(round: Round, rest: seq<Round>)
    ensures Concat(ReceivedChunks([round] + rest))
            == (if round.Received? then round.chunk else []) + Concat(ReceivedChunks(rest))
  {
    assert ([round] + rest)[1..] == rest;
    if round.Received? && round.chunk != [] {
      assert ([round.chunk] + ReceivedChunks(rest))[1..] == ReceivedChunks(rest);
    } else {
      assert [] + ReceivedChunks(rest) == ReceivedChunks(rest);
    }
  }

  /** The stream comes through unchanged exactly when every chunk received was also sent: a chunk whose write poll
      times out is dropped, and the loop goes on without it. */
  lemma FaithfulIff(rounds: seq<Round>)
    ensures Output(rounds) == Input(rounds) <==> NothingDropped(Executed(rounds))
  {
    LengthsOf(Executed(rounds));
  }

  lemma StillOpenGrows(rounds: seq<Round>, r: Round)
    ensures StillOpen(rounds + [r]) == (StillOpen(rounds) && !Closes(r))
  {
    assert forall i :: 0 <= i < |rounds| ==> rounds[i] == (rounds + [r])[i];
    assert (rounds + [r])[|rounds|] == r;
  }

  lemma {:induction false} ExecutedGrows(rounds: seq<Round>, r: Round)
    ensures Executed(rounds + [r]) == if StillOpen(rounds) then Executed(rounds) + [r] else Executed(rounds)
  {
    if rounds == [] {
      assert [] + [r] == [r] && [r][1..] == [];
    } else {
      var first, rest := rounds[0], rounds[1..];
      assert (rounds + [r])[1..] == rest + [r] && (rounds + [r])[0] == first;
      assert StillOpen(rounds) <==> !Closes(first) && StillOpen(rest);
      ExecutedGrows(rest, r);
    }
  }

  lemma Regroup(a: seq<Byte>, b: seq<Byte>, c: seq<Byte>)
    ensures a + (b + c) == a + b + c
  {
  }

  lemma {:induction false} ForwardedLast(rounds: seq<Round>, r: Round)
    ensures Concat(ForwardedChunks(rounds + [r]))
            == Concat(ForwardedChunks(rounds)) + if Forwards(r) then r.chunk else []
  {
    if rounds == [] {
      assert [] + [r] == [r] + [];
      ForwardedFirst(r, []);
    } else {
      var first, rest := rounds[0], rounds[1..];
      assert rounds == [first] + rest && rounds + [r] == [first] + (rest + [r]);
      ForwardedFirst(first, rest);
      ForwardedFirst(first, rest + [r]);
      ForwardedLast(rest, r);
      Regroup(if Forwards(first) then first.chunk else [], Concat(ForwardedChunks(rest)),
              if Forwards(r) then r.chunk else []);
    }
  }

  lemma {:induction false} ReceivedLast(rounds: seq<Round>, r: Round)
    ensures Concat(ReceivedChunks(rounds + [r]))
            == Concat(ReceivedChunks(rounds)) + if r.Received? then r.chunk else []
  {
    if rounds == [] {
      assert [] + [r] == [r] + [];
      ReceivedFirst(r, []);
    } else {
      var first, rest := rounds[0], rounds[1..];
      assert rounds == [first] + rest && rounds + [r] == [first] + (rest + [r]);
      ReceivedFirst(first, rest);
      ReceivedFirst(first, rest + [r]);
      ReceivedLast(rest, r);
      Regroup(if first.Received? then first.chunk else [], Concat(ReceivedChunks(rest)),
              if r.Received? then r.chunk else []);
    }
  }

  lemma OutputGrows(rounds: seq<Round>, r: Round)
    ensures Output(rounds + [r]) == Output(rounds) + if StillOpen(rounds) && Forwards(r) then r.chunk else []
    ensures StillOpen(rounds + [r]) == (StillOpen(rounds) && !Closes(r))
  {
    StillOpenGrows(rounds, r);
    ExecutedGrows(rounds, r);
    ForwardedLast(Executed(rounds), r);
  }

  lemma InputGrows(rounds: seq<Round>, r: Round)
    ensures Input(rounds + [r]) == Input(rounds) + if StillOpen(rounds) && r.Received? then r.chunk else []
  {
    ExecutedGrows(rounds, r);
    ReceivedLast(Executed(rounds), r);
  }

  /** What the rounds deliver, said without the helpers above: a poll that times out is waited out, a chunk is passed on
      or, if the other side is not ready, dropped, and a failing read, an empty chunk or a throwing send ends it all. */
  function Delivered(rounds: seq<Round>): seq<Byte> {
    if rounds == [] then []
    else
      var rest := rounds[1..];
      match rounds[0]
      case NothingToRead => Delivered(rest)
      case ReadThrew => []
      case Received(chunk, write) =>
        if chunk == [] then []
        else
          match write
          case Sent => chunk + Delivered(rest)
          case TimedOut => Delivered(rest)
          case SendThrew => []
  }

  lemma {:induction false} OutputIsDelivered(rounds: seq<Round>)
    ensures Output(rounds) == Delivered(rounds)
  {
    if rounds != [] {
      var first, rest := rounds[0], rounds[1..];
      OutputIsDelivered(rest);
      if Closes(first) {
        assert Executed(rounds) == [first] + [];
        ForwardedFirst(first, []);
      } else {
        ForwardedFirst(first, Executed(rest));
      }
    }
  }

  /** Exactly when the loop is still open: no read failed, no chunk was empty, and no send of a chunk threw. */
  lemma StillOpenIff(rounds: seq<Round>)
    ensures StillOpen(rounds) <==>
              forall i :: 0 <= i < |rounds| ==>
                match rounds[i]
                case NothingToRead => true
                case ReadThrew => false
                case Received(chunk, write) => chunk != [] && write != SendThrew
  {
  }

  // ---- Both threads over both sockets ----

  /** A loop is named after the side it reads from; it writes to the other side. */
  datatype Side = FromClient | FromDestination

  /** A socket that both threads use: the bytes that have arrived and were not read yet, whether the peer has closed,
      and the bytes that were written to it. */
  datatype Endpoint = Endpoint(inbound: seq<Byte>, closed: bool, outbound: seq<Byte>)

  /** Where a loop is: about to poll and read, about to poll and write what it has read, or ended. */
  datatype Loop = AtRead | AtWrite(chunk: seq<Byte>) | Ended

  /** Where the thread of the connection is: in relayClientData, in the join of the other thread, or past it. */
  datatype Position = Relaying | Joining | After

  datatype State = State(
    client: Endpoint,
    destination: Endpoint,
    fromClient: Loop,
    fromDestination: Loop,
    position: Position)

  datatype ReadResult = TimesOut | Fails | Takes(n: nat)

  datatype Event =
    | Arrives(side: Side, bytes: seq<Byte>)
    | PeerCloses(side: Side)
    | Reads(side: Side, result: ReadResult)
    | Writes(side: Side, write: Write)
    | Returns

  const FRESH := Endpoint([], false, [])

  const INITIAL := State(FRESH, FRESH, AtRead, AtRead, Relaying)

  function Other(side: Side): Side {
    if side == FromClient then FromDestination else FromClient
  }

  function Capacity(side: Side): nat {
    if side == FromClient then 65336 else 131072
  }

  function Socket(s: State, side: Side): Endpoint {
    if side == FromClient then s.client else s.destination
  }

  function LoopOf(s: State, side: Side): Loop {
    if side == FromClient then s.fromClient else s.fromDestination
  }

  function WithSocket(s: State, side: Side, endpoint: Endpoint): State {
    if side == FromClient then s.(client := endpoint) else s.(destination := endpoint)
  }

  function WithLoop(s: State, side: Side, loop: Loop): State {
    if side == FromClient then s.(fromClient := loop) else s.(fromDestination := loop)
  }

  function Min(a: nat, b: nat): nat {
    if a < b then a else b
  }

  /** How many bytes a read of at most `n` takes into a buffer of the given capacity. */
  function Taken(endpoint: Endpoint, n: nat, capacity: nat): nat {
    Min(n, Min(capacity, |endpoint.inbound|))
  }

  /** The round that a read completes, if it does: one that has taken bytes goes on to the write. */
  function ReadRound(endpoint: Endpoint, result: ReadResult, capacity: nat): Option<Round> {
    match result
    case TimesOut => Some(NothingToRead)
    case Fails => Some(ReadThrew)
    case Takes(n) =>
      if Taken(endpoint, n, capacity) > 0 then None
      else if endpoint.inbound == [] && endpoint.closed then Some(Received([], TimedOut))
      else Some(NothingToRead)
  }

  function AfterRound(round: Round): Loop {
    if Closes(round) then Ended else AtRead
  }

  /** The first half of a round. */
  function ReadStep(s: State, side: Side, result: ReadResult): State {
    var endpoint := Socket(s, side);
    match ReadRound(endpoint, result, Capacity(side))
    case Some(round) => WithLoop(s, side, AfterRound(round))
    case None =>
      var taken := Taken(endpoint, result.n, Capacity(side));
      WithSocket(WithLoop(s, side, AtWrite(endpoint.inbound[..taken])), side,
                 endpoint.(inbound := endpoint.inbound[taken..]))
  }

  /** The second half: a write poll that times out drops the chunk. */
  function WriteStep(s: State, side: Side, chunk: seq<Byte>, write: Write): State {
    var endpoint := Socket(s, Other(side));
    var next := WithLoop(s, side, AfterRound(Received(chunk, write)));
    if write == Sent then WithSocket(next, Other(side), endpoint.(outbound := endpoint.outbound + chunk)) else next
  }

  function Step(s: State, e: Event): State {
    match e
    case Arrives(side, bytes) =>
      var endpoint := Socket(s, side);
      if endpoint.closed then s else WithSocket(s, side, endpoint.(inbound := endpoint.inbound + bytes))
    case PeerCloses(side) => WithSocket(s, side, Socket(s, side).(closed := true))
    case Reads(side, result) => if LoopOf(s, side).AtRead? then ReadStep(s, side, result) else s
    case Writes(side, write) =>
      if LoopOf(s, side).AtWrite? then WriteStep(s, side, LoopOf(s, side).chunk, write) else s
    case Returns =>
      match s.position
      case Relaying => if s.fromClient.Ended? then s.(position := Joining) else s
      case Joining => if s.fromDestination.Ended? then s.(position := After) else s
      case After => s
  }

  function Run(events: seq<Event>): State {
    if events == [] then INITIAL else Step(Run(events[..|events| - 1]), events[|events| - 1])
  }

  /** The round an event completes for the given loop. */
  function Completed(s: State, e: Event, side: Side): Option<Round> {
    match e
    case Reads(x, result) =>
      if x == side && LoopOf(s, side).AtRead? then ReadRound(Socket(s, side), result, Capacity(side)) else None
    case Writes(x, write) =>
      if x == side && LoopOf(s, side).AtWrite? then Some(Received(LoopOf(s, side).chunk, write)) else None
    case _ => None
  }

  function Rounds(events: seq<Event>, side: Side): seq<Round> {
    if events == [] then []
    else
      var n := |events| - 1;
      Rounds(events[..n], side)
      + match Completed(Run(events[..n]), events[n], side) case Some(round) => [round] case None => []
  }

  /** All that has arrived from a side until its peer closed. */
  function Arrived(events: seq<Event>, side: Side): seq<Byte> {
    if events == [] then []
    else
      var n := |events| - 1;
      Arrived(events[..n], side) + Arriving(Run(events[..n]), events[n], side)
  }

  function InHand(loop: Loop): seq<Byte> {
    if loop.AtWrite? then loop.chunk else []
  }

  /** The loop that reads `side` is what `Relay` makes of its own rounds: it has written to the other socket just
      their output, it has ended exactly if one of them closed it, and what arrived is what it took, what it holds,
      and what still waits. */
  ghost predicate InOrder(s: State, side: Side, rounds: seq<Round>, arrived: seq<Byte>) {
    && Socket(s, Other(side)).outbound == Output(rounds)
    && (LoopOf(s, side).Ended? <==> !StillOpen(rounds))
    && (LoopOf(s, side).AtWrite? ==> LoopOf(s, side).chunk != [])
    && arrived == Input(rounds) + InHand(LoopOf(s, side)) + Socket(s, side).inbound
  }

  lemma ReadCompleted(s: State, result: ReadResult, side: Side, round: Round, rounds: seq<Round>, arrived: seq<Byte>)
    requires InOrder(s, side, rounds, arrived) && LoopOf(s, side).AtRead?
    requires ReadRound(Socket(s, side), result, Capacity(side)) == Some(round)
    ensures InOrder(ReadStep(s, side, result), side, rounds + [round], arrived)
  {
    OutputGrows(rounds, round);
    InputGrows(rounds, round);
    assert Output(rounds) + [] == Output(rounds) && Input(rounds) + [] == Input(rounds);
  }

  lemma WriteCompleted(s: State, chunk: seq<Byte>, write: Write, side: Side, rounds: seq<Round>, arrived: seq<Byte>)
    requires InOrder(s, side, rounds, arrived) && LoopOf(s, side) == AtWrite(chunk)
    ensures InOrder(WriteStep(s, side, chunk, write), side, rounds + [Received(chunk, write)], arrived)
  {
    OutputGrows(rounds, Received(chunk, write));
    InputGrows(rounds, Received(chunk, write));
    assert Output(rounds) + [] == Output(rounds);
    assert Input(rounds) + chunk + [] == Input(rounds) + chunk;
  }

  lemma RoundCompleted(s: State, e: Event, side: Side, round: Round, rounds: seq<Round>, arrived: seq<Byte>)
    requires InOrder(s, side, rounds, arrived) && Completed(s, e, side) == Some(round)
    ensures InOrder(Step(s, e), side, rounds + [round], arrived)
  {
    if e.Reads? {
      ReadCompleted(s, e.result, side, round, rounds, arrived);
    } else {
      WriteCompleted(s, LoopOf(s, side).chunk, e.write, side, rounds, arrived);
    }
  }

  lemma RoundBegun(s: State, result: ReadResult, side: Side, rounds: seq<Round>, arrived: seq<Byte>)
    requires InOrder(s, side, rounds, arrived) && LoopOf(s, side).AtRead?
    requires ReadRound(Socket(s, side), result, Capacity(side)).None?
    ensures InOrder(Step(s, Reads(side, result)), side, rounds, arrived)
  {
    var endpoint := Socket(s, side);
    var taken := Taken(endpoint, result.n, Capacity(side));
    assert endpoint.inbound == endpoint.inbound[..taken] + endpoint.inbound[taken..];
    assert Input(rounds) + [] + endpoint.inbound
           == Input(rounds) + endpoint.inbound[..taken] + endpoint.inbound[taken..];
  }

  /** What `e` adds to what has arrived from a side. */
  function Arriving(s: State, e: Event, side: Side): seq<Byte> {
    if e.Arrives? && e.side == side && !Socket(s, side).closed then e.bytes else []
  }

  lemma ArrivalKeeps(s: State, e: Event, side: Side, rounds: seq<Round>, arrived: seq<Byte>)
    requires InOrder(s, side, rounds, arrived) && e.Arrives?
    ensures InOrder(Step(s, e), side, rounds, arrived + Arriving(s, e, side))
  {
    var next, waiting := Step(s, e), Socket(s, side).inbound;
    assert Socket(next, Other(side)).outbound == Socket(s, Other(side)).outbound;
    assert LoopOf(next, side) == LoopOf(s, side);
    assert Socket(next, side).inbound == waiting + Arriving(s, e, side);
  }

  lemma OthersRead(s: State, result: ReadResult, side: Side, rounds: seq<Round>, arrived: seq<Byte>)
    requires InOrder(s, side, rounds, arrived) && LoopOf(s, Other(side)).AtRead?
    ensures InOrder(ReadStep(s, Other(side), result), side, rounds, arrived)
  {
  }

  lemma OthersWrite(s: State, chunk: seq<Byte>, write: Write, side: Side, rounds: seq<Round>, arrived: seq<Byte>)
    requires InOrder(s, side, rounds, arrived)
    ensures InOrder(WriteStep(s, Other(side), chunk, write), side, rounds, arrived)
  {
  }

  /** No event of another kind, and none of the other thread, disturbs this one's stream. */
  lemma Undisturbed(s: State, e: Event, side: Side, rounds: seq<Round>, arrived: seq<Byte>)
    requires InOrder(s, side, rounds, arrived)
    requires (e.Reads? || e.Writes?) ==> e.side != side
    ensures InOrder(Step(s, e), side, rounds, arrived + Arriving(s, e, side))
  {
    assert arrived + [] == arrived;
    match e
    case Arrives(_, _) => ArrivalKeeps(s, e, side, rounds, arrived);
    case Reads(x, result) => if LoopOf(s, x).AtRead? { OthersRead(s, result, side, rounds, arrived); }
    case Writes(x, write) =>
      if LoopOf(s, x).AtWrite? { OthersWrite(s, LoopOf(s, x).chunk, write, side, rounds, arrived); }
    case _ =>
  }

  lemma StreamStep(s: State, e: Event, side: Side, rounds: seq<Round>, arrived: seq<Byte>)
    requires InOrder(s, side, rounds, arrived)
    ensures InOrder(Step(s, e), side,
                    rounds + match Completed(s, e, side) case Some(round) => [round] case None => [],
                    arrived + Arriving(s, e, side))
  {
    assert rounds + [] == rounds && arrived + [] == arrived;
    if Completed(s, e, side).Some? {
      RoundCompleted(s, e, side, Completed(s, e, side).value, rounds, arrived);
    } else if e.Reads? && e.side == side && LoopOf(s, side).AtRead? {
      RoundBegun(s, e.result, side, rounds, arrived);
    } else if !((e.Reads? || e.Writes?) && e.side == side) {
      Undisturbed(s, e, side, rounds, arrived);
    }
  }

  /** Neither thread disturbs the other, though they share both sockets: under every schedule of the two loops, of
      arrivals and of closes, each direction delivers what its loop makes of its own rounds, in order. */
  lemma {:induction false} DirectionsAreIndependent(events: seq<Event>, side: Side)
    ensures InOrder(Run(events), side, Rounds(events, side), Arrived(events, side))
  {
    if events != [] {
      var n := |events| - 1;
      DirectionsAreIndependent(events[..n], side);
      StreamStep(Run(events[..n]), events[n], side, Rounds(events[..n], side), Arrived(events[..n], side));
    }
  }

  /** What arrived from one side has been written to the other, is in the loop's hands, or still waits, all of it and
      in order, exactly when no write poll has timed out and no send has failed on a chunk. */
  lemma TunnelIsFaithfulIff(events: seq<Event>, side: Side)
    ensures var s := Run(events);
            Arrived(events, side) == Socket(s, Other(side)).outbound + InHand(LoopOf(s, side)) + Socket(s, side).inbound
            <==> NothingDropped(Executed(Rounds(events, side)))
  {
    var s, rounds := Run(events), Rounds(events, side);
    DirectionsAreIndependent(events, side);
    FaithfulIff(rounds);
    SamePrefix(Input(rounds), Output(rounds), InHand(LoopOf(s, side)), Socket(s, side).inbound);
  }

  lemma SamePrefix(a: seq<Byte>, b: seq<Byte>, c: seq<Byte>, d: seq<Byte>)
    ensures a + c + d == b + c + d <==> a == b
  {
    if a + c + d == b + c + d {
      assert |a| == |b|;
      assert a == (a + c + d)[..|a|] == (b + c + d)[..|b|] == b;
    }
  }

  lemma RunAppend(events: seq<Event>, e: Event)
    ensures Run(events + [e]) == Step(Run(events), e)
    ensures forall side :: Rounds(events + [e], side)
              == Rounds(events, side) + match Completed(Run(events), e, side) case Some(r) => [r] case None => []
    ensures forall side :: Arrived(events + [e], side) == Arrived(events, side) + Arriving(Run(events), e, side)
  {
    assert (events + [e])[..|events|] == events;
  }

  /** A tunnel that is not faithful: a byte arrives and is read, the write poll times out, and the byte is gone. */
  lemma TunnelCanDrop(byte: Byte)
    ensures var events := [Arrives(FromClient, [byte])] + [Reads(FromClient, Takes(1))]
                          + [Writes(FromClient, TimedOut)];
            var s := Run(events);
            && Arrived(events, FromClient) == [byte] && s.destination.outbound == []
            && s.client.inbound == [] && s.fromClient == AtRead
  {
    var a := [Arrives(FromClient, [byte])];
    var b := a + [Reads(FromClient, Takes(1))];
    assert [] + a == a;
    RunAppend([], Arrives(FromClient, [byte]));
    RunAppend(a, Reads(FromClient, Takes(1)));
    RunAppend(b, Writes(FromClient, TimedOut));
    assert Run(a).client.inbound == [byte];
    assert Run(b).client.inbound == [] && Run(b).fromClient == AtWrite([byte]);
  }

  // ---- What each half round does ----

  /** A read poll that times out changes nothing: an idle tunnel stays open, however long. */
  lemma IdlePollChangesNothing(events: seq<Event>, side: Side)
    ensures Run(events + [Reads(side, TimesOut)]) == Run(events)
  {
    RunAppend(events, Reads(side, TimesOut));
  }

  /** A read takes bytes off the front of what waits: at most as many as the socket gives, the buffer holds and there
      are; and the loop goes on to write just those. */
  lemma ReadTakesFromFront(events: seq<Event>, side: Side, n: nat)
    requires LoopOf(Run(events), side) == AtRead && Socket(Run(events), side).inbound != [] && n > 0
    ensures var waiting, next := Socket(Run(events), side).inbound, Run(events + [Reads(side, Takes(n))]);
            exists k: nat ::
              && 0 < k <= n && k <= |waiting| && k <= (if side == FromClient then 65336 else 131072)
              && (k == n || k == |waiting| || k == if side == FromClient then 65336 else 131072)
              && LoopOf(next, side) == AtWrite(waiting[..k]) && Socket(next, side).inbound == waiting[k..]
  {
    RunAppend(events, Reads(side, Takes(n)));
    var k: nat := Taken(Socket(Run(events), side), n, Capacity(side));
    assert LoopOf(Run(events + [Reads(side, Takes(n))]), side) == AtWrite(Socket(Run(events), side).inbound[..k]);
  }

  /** A write puts the whole chunk on the other socket, or nothing: the loop then reads on, unless the send threw. */
  lemma WriteIsWholeOrNothing(events: seq<Event>, side: Side, write: Write)
    requires LoopOf(Run(events), side).AtWrite?
    ensures var s, next := Run(events), Run(events + [Writes(side, write)]);
            && Socket(next, Other(side)).outbound
               == Socket(s, Other(side)).outbound + (if write == Sent then LoopOf(s, side).chunk else [])
            && LoopOf(next, side) == if write == SendThrew then Ended else AtRead
  {
    RunAppend(events, Writes(side, write));
    DirectionsAreIndependent(events, side);
    var s := Run(events);
    assert Socket(s, Other(side)).outbound + [] == Socket(s, Other(side)).outbound;
  }

  /** The event ends the loop: a failing read, a read of a socket that is drained and closed, or a throwing send. */
  predicate EndsLoop(s: State, e: Event, side: Side) {
    || (e == Reads(side, Fails) && LoopOf(s, side).AtRead?)
    || (e.Reads? && e.side == side && e.result.Takes? && LoopOf(s, side).AtRead?
        && Socket(s, side).inbound == [] && Socket(s, side).closed)
    || (e == Writes(side, SendThrew) && LoopOf(s, side).AtWrite?)
  }

  ghost predicate EndedAt(events: seq<Event>, side: Side, i: int) {
    0 <= i < |events| && EndsLoop(Run(events[..i]), events[i], side)
  }

  ghost predicate WasEnded(events: seq<Event>, side: Side) {
    exists i :: EndedAt(events, side, i)
  }

  lemma EndsStep(s: State, e: Event, side: Side)
    requires LoopOf(s, side).AtWrite? ==> LoopOf(s, side).chunk != []
    ensures LoopOf(Step(s, e), side).Ended? <==> LoopOf(s, side).Ended? || EndsLoop(s, e, side)
  {
  }

  lemma WasEndedNext(events: seq<Event>, side: Side)
    requires events != []
    ensures WasEnded(events, side)
            <==> WasEnded(events[..|events| - 1], side) || EndedAt(events, side, |events| - 1)
  {
    var earlier := events[..|events| - 1];
    forall i | 0 <= i < |earlier| ensures EndedAt(earlier, side, i) <==> EndedAt(events, side, i) {
      assert earlier[..i] == events[..i];
    }
    if WasEnded(earlier, side) {
      var i :| EndedAt(earlier, side, i);
      assert EndedAt(events, side, i);
    }
    if WasEnded(events, side) {
      var i :| EndedAt(events, side, i);
      assert i < |earlier| ==> EndedAt(earlier, side, i);
    }
  }

  /** Exactly when a loop has ended, in every run. */
  lemma {:induction false} LoopEndsIff(events: seq<Event>, side: Side)
    ensures LoopOf(Run(events), side).Ended? <==> WasEnded(events, side)
  {
    if events != [] {
      var earlier := events[..|events| - 1];
      LoopEndsIff(earlier, side);
      WasEndedNext(events, side);
      DirectionsAreIndependent(earlier, side);
      EndsStep(Run(earlier), events[|events| - 1], side);
    }
  }

  // ---- The join ----

  /** The connection's thread has left its loop before it joins, and the other's loop has ended before it is past. */
  lemma {:induction false} PositionIsEarned(events: seq<Event>)
    ensures var s := Run(events);
            && (s.position != Relaying ==> s.fromClient.Ended?)
            && (s.position == After ==> s.fromDestination.Ended?)
  {
    if events != [] {
      PositionIsEarned(events[..|events| - 1]);
    }
  }

  ghost predicate SawClose(events: seq<Event>, side: Side) {
    exists i :: 0 <= i < |Rounds(events, side)| && Closes(Rounds(events, side)[i])
  }

  /** Control is past the join only after both loops have seen a close or an error. */
  lemma JoinNeedsBothCloses(events: seq<Event>)
    requires Run(events).position == After
    ensures SawClose(events, FromClient) && SawClose(events, FromDestination)
  {
    PositionIsEarned(events);
    DirectionsAreIndependent(events, FromClient);
    DirectionsAreIndependent(events, FromDestination);
  }

  /** And once both have, the connection's thread gets past it by its own next two steps; while one has not, it does
      not. */
  lemma JoinIsPassedIff(events: seq<Event>)
    ensures Run(events + [Returns] + [Returns]).position == After
            <==> SawClose(events, FromClient) && SawClose(events, FromDestination)
  {
    var once := events + [Returns];
    assert once[..|events|] == events && (once + [Returns])[..|once|] == once;
    PositionIsEarned(events);
    DirectionsAreIndependent(events, FromClient);
    DirectionsAreIndependent(events, FromDestination);
    assert forall side :: SawClose(events, side) <==> !StillOpen(Rounds(events, side));
  }
}
