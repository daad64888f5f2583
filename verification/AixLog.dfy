/** The log line assembler: a stream buffer whose metadata changes while characters arrive. */
module AixLog {
  import opened Wrappers

  datatype Type = Normal | Special | All

  /** A sink's filters; `severity` grows from trace to fatal. */
  datatype Sink = Sink(severity: int, kind: Type)

  datatype Message = Message(severity: int, kind: Type, text: string)

  /** `outputs` is what each sink has been given. */
  datatype State = State(buffer: string, severity: int, kind: Type, condition: bool, outputs: seq<seq<Message>>)

  /** What is streamed into the log: characters (None is EOF, as from a flush), and the manipulators. */
  datatype Event =
    | Put(c: Option<char>)
    | SetSeverity(severity: int)
    | SetType(kind: Type)
    | SetConditional(condition: bool)

  const TRACE := 0

  function Initial(sinks: seq<Sink>): State {
    State("", TRACE, Normal, true, seq(|sinks|, _ => []))
  }

  predicate Accepts(sink: Sink, m: Message) {
    && (m.kind == All || sink.kind == All || m.kind == sink.kind)
    && m.severity >= sink.severity
  }

  function Line(s: State): Message {
    Message(s.severity, s.kind, s.buffer)
  }

  function Offer(sinks: seq<Sink>, outputs: seq<seq<Message>>, m: Message): (r: seq<seq<Message>>)
    requires |outputs| == |sinks|
    ensures |r| == |sinks|
  {
    seq(|sinks|, i requires 0 <= i < |sinks| => if Accepts(sinks[i], m) then outputs[i] + [m] else outputs[i])
  }

  function Sync(sinks: seq<Sink>, s: State): State
    requires |s.outputs| == |sinks|
  {
    if s.buffer == "" then s
    else s.(buffer := "", outputs := if s.condition then Offer(sinks, s.outputs, Line(s)) else s.outputs)
  }

  function Step(sinks: seq<Sink>, s: State, e: Event): (r: State)
    requires |s.outputs| == |sinks|
    ensures |r.outputs| == |sinks|
  {
    match e
    case Put(None) => Sync(sinks, s)
    case Put(Some(c)) => if c == '\n' then Sync(sinks, s) else s.(buffer := s.buffer + [c])
    case SetSeverity(severity) =>
      if s.severity != severity then Sync(sinks, s).(severity := severity, kind := Normal, condition := true) else s
    case SetType(kind) => s.(kind := kind)
    case SetConditional(condition) => s.(condition := condition)
  }

  // ---- The code ----

  class Log {
    const logSinks: seq<Sink>
    var buffer: string
    var severity: int
    var kind: Type
    var conditional: bool
    var outputs: seq<seq<Message>>

    ghost predicate Valid()
      reads this
    {
      |outputs| == |logSinks|
    }

    ghost function Abstract(): State
      reads this
    {
      State(buffer, severity, kind, conditional, outputs)
    }

    constructor (sinks: seq<Sink>)
      ensures Valid() && logSinks == sinks && Abstract() == Initial(sinks)
    {
      logSinks := sinks;
      buffer, severity, kind, conditional, outputs := "", TRACE, Normal, true, seq(|sinks|, _ => []);
    }

    /** The loop of `sync` over the sinks. */
    method Deliver(message: Message)
      requires Valid()
      modifies this`outputs
      ensures Valid() && outputs == Offer(logSinks, old(outputs), message)
    {
      var i := 0;
      while i < |logSinks|
        invariant 0 <= i <= |logSinks| == |outputs|
        invariant forall k :: 0 <= k < i ==> outputs[k] == Offer(logSinks, old(outputs), message)[k]
        invariant forall k :: i <= k < |outputs| ==> outputs[k] == old(outputs)[k]
      {
        var sink := logSinks[i];
        if message.kind == All || sink.kind == All || message.kind == sink.kind {
          if message.severity >= sink.severity {
            outputs := outputs[i := outputs[i] + [message]];
          }
        }
        i := i + 1;
      }
    }

    method Flush()
      requires Valid()
      modifies this
      ensures Valid() && Abstract() == Sync(logSinks, old(Abstract()))
    {
      if buffer != "" {
        if conditional {
          Deliver(Message(severity, kind, buffer));
        }
        buffer := "";
      }
    }

    method Overflow(c: Option<char>)
      requires Valid()
      modifies this
      ensures Valid() && Abstract() == Step(logSinks, old(Abstract()), Put(c))
    {
      if c.Some? {
        if c.value == '\n' {
          Flush();
        } else {
          buffer := buffer + [c.value];
        }
      } else {
        Flush();
      }
    }

    method StreamSeverity(logSeverity: int)
      requires Valid()
      modifies this
      ensures Valid() && Abstract() == Step(logSinks, old(Abstract()), SetSeverity(logSeverity))
    {
      if severity != logSeverity {
        Flush();
        severity := logSeverity;
        kind := Normal;
        conditional := true;
      }
    }

    method StreamType(logType: Type)
      requires Valid()
      modifies this
      ensures Valid() && Abstract() == Step(logSinks, old(Abstract()), SetType(logType))
    {
      kind := logType;
    }

    method StreamConditional(value: bool)
      requires Valid()
      modifies this
      ensures Valid() && Abstract() == Step(logSinks, old(Abstract()), SetConditional(value))
    {
      conditional := value;
    }
  }

  // ---- Whole event sequences ----

  function Run(sinks: seq<Sink>, events: seq<Event>): (s: State)
    ensures |s.outputs| == |sinks|
  {
    if events == [] then Initial(sinks)
    else Step(sinks, Run(sinks, events[..|events| - 1]), events[|events| - 1])
  }

  /** A line that left the buffer, delivered or suppressed. */
  datatype Flushed = Flushed(line: Message, delivered: bool)

  predicate Syncs(s: State, e: Event) {
    (e.Put? && e.c in {None, Some('\n')}) || (e.SetSeverity? && e.severity != s.severity)
  }

  function Flushes(sinks: seq<Sink>, events: seq<Event>): seq<Flushed> {
    if events == [] then []
    else
      var s, e := Run(sinks, events[..|events| - 1]), events[|events| - 1];
      Flushes(sinks, events[..|events| - 1])
      + if Syncs(s, e) && s.buffer != "" then [Flushed(Line(s), s.condition)] else []
  }

  /** A character and what it was written under: a severity or a type. */
  datatype Written<T> = Written(c: char, mark: T)

  /** The characters fed, newlines aside, each with the severity in force when it was fed. */
  function Fed(sinks: seq<Sink>, events: seq<Event>): seq<Written<int>> {
    if events == [] then []
    else
      var s, e := Run(sinks, events[..|events| - 1]), events[|events| - 1];
      Fed(sinks, events[..|events| - 1])
      + if e.Put? && e.c.Some? && e.c != Some('\n') then [Written(e.c.value, s.severity)] else []
  }

  function Under<T>(text: string, mark: T): seq<Written<T>> {
    seq(|text|, i requires 0 <= i < |text| => Written(text[i], mark))
  }

  function Leaving(flushes: seq<Flushed>): seq<Written<int>> {
    if flushes == [] then []
    else
      var f := flushes[|flushes| - 1];
      Leaving(flushes[..|flushes| - 1]) + Under(f.line.text, f.line.severity)
  }

  lemma UnderAppend<T>(text: string, c: char, mark: T)
    ensures Under(text + [c], mark) == Under(text, mark) + [Written(c, mark)]
  {
  }

  lemma LeavingAppend(flushes: seq<Flushed>, f: Flushed)
    ensures Leaving(flushes + [f]) == Leaving(flushes) + Under(f.line.text, f.line.severity)
  {
    assert (flushes + [f])[..|flushes|] == flushes;
  }

  lemma FlushedNext(sinks: seq<Sink>, events: seq<Event>)
    requires events != []
    ensures var earlier, e := events[..|events| - 1], events[|events| - 1];
            var s := Run(sinks, earlier);
            Flushes(sinks, events)
            == if Syncs(s, e) && s.buffer != "" then Flushes(sinks, earlier) + [Flushed(Line(s), s.condition)]
               else Flushes(sinks, earlier)
  {
  }

  /** What one event does to the buffer: it is handed on whole, grows by the character fed, or stays. */
  lemma BufferAfter(sinks: seq<Sink>, s: State, e: Event)
    requires |s.outputs| == |sinks|
    ensures var t := Step(sinks, s, e);
            if Syncs(s, e) && s.buffer != "" then t.buffer == ""
            else if e.Put? && e.c.Some? && e.c != Some('\n') then
              t.buffer == s.buffer + [e.c.value] && t.severity == s.severity
            else t.buffer == s.buffer && (s.buffer == "" || t.severity == s.severity)
  {
  }

  lemma FedNext(sinks: seq<Sink>, events: seq<Event>)
    requires events != []
    ensures var earlier, e := events[..|events| - 1], events[|events| - 1];
            Fed(sinks, events)
            == if e.Put? && e.c.Some? && e.c != Some('\n') then
                 Fed(sinks, earlier) + [Written(e.c.value, Run(sinks, earlier).severity)]
               else Fed(sinks, earlier)
  {
  }

  /** One step, with `fed` the characters fed before it and `left` those that have left. */
  lemma KeptStep(sinks: seq<Sink>, s: State, e: Event, fed: seq<Written<int>>, left: seq<Written<int>>)
    requires |s.outputs| == |sinks| && fed == left + Under(s.buffer, s.severity)
    ensures var t := Step(sinks, s, e);
            var nextFed :=
              if e.Put? && e.c.Some? && e.c != Some('\n') then fed + [Written(e.c.value, s.severity)] else fed;
            var nextLeft := if Syncs(s, e) && s.buffer != "" then left + Under(s.buffer, s.severity) else left;
            nextFed == nextLeft + Under(t.buffer, t.severity)
  {
    var t := Step(sinks, s, e);
    BufferAfter(sinks, s, e);
    if e.Put? && e.c.Some? && e.c != Some('\n') {
      UnderAppend(s.buffer, e.c.value, s.severity);
    } else if t.buffer == "" {
      assert Under(t.buffer, t.severity) == [];
      assert s.buffer == "" ==> Under(s.buffer, s.severity) == [];
    }
  }

  /** Conservation and severity purity at once: the characters fed are, in order, those of the lines that left the
      buffer followed by those in it, and each line left under the very severity its characters were written under. */
  lemma {:induction false} NothingIsLostOrRelabelled(sinks: seq<Sink>, events: seq<Event>)
    ensures var s := Run(sinks, events);
            Fed(sinks, events) == Leaving(Flushes(sinks, events)) + Under(s.buffer, s.severity)
  {
    if events == [] {
      assert Under("", TRACE) == [];
    } else {
      var earlier, e := events[..|events| - 1], events[|events| - 1];
      var s := Run(sinks, earlier);
      NothingIsLostOrRelabelled(sinks, earlier);
      FedNext(sinks, events);
      FlushedNext(sinks, events);
      LeavingAppend(Flushes(sinks, earlier), Flushed(Line(s), s.condition));
      KeptStep(sinks, s, e, Fed(sinks, earlier), Leaving(Flushes(sinks, earlier)));
    }
  }

  /** What one sink should get: the delivered lines that pass its filters. */
  function Selected(sink: Sink, flushes: seq<Flushed>): seq<Message> {
    if flushes == [] then []
    else
      var f := flushes[|flushes| - 1];
      Selected(sink, flushes[..|flushes| - 1]) + if f.delivered && Accepts(sink, f.line) then [f.line] else []
  }

  lemma SelectedAppend(sink: Sink, flushes: seq<Flushed>, f: Flushed)
    ensures Selected(sink, flushes + [f])
            == if f.delivered && Accepts(sink, f.line) then Selected(sink, flushes) + [f.line]
               else Selected(sink, flushes)
  {
    assert (flushes + [f])[..|flushes|] == flushes;
  }

  /** What one event does to one sink: it gets the line that leaves, if that is delivered and passes its filters. */
  lemma OutputAfter(sinks: seq<Sink>, s: State, e: Event, i: nat)
    requires |s.outputs| == |sinks| && i < |sinks|
    ensures Step(sinks, s, e).outputs[i]
            == if Syncs(s, e) && s.buffer != "" && s.condition && Accepts(sinks[i], Line(s)) then
                 s.outputs[i] + [Line(s)]
               else s.outputs[i]
  {
  }

  lemma {:induction false} SinksGetTheirSelection(sinks: seq<Sink>, events: seq<Event>, i: nat)
    requires i < |sinks|
    ensures Run(sinks, events).outputs[i] == Selected(sinks[i], Flushes(sinks, events))
  {
    if events != [] {
      var earlier, e := events[..|events| - 1], events[|events| - 1];
      SinksGetTheirSelection(sinks, earlier, i);
      var s := Run(sinks, earlier);
      FlushedNext(sinks, events);
      OutputAfter(sinks, s, e, i);
      if Syncs(s, e) && s.buffer != "" {
        SelectedAppend(sinks[i], Flushes(sinks, earlier), Flushed(Line(s), s.condition));
      }
    }
  }

  lemma {:induction false} DeliveredLinesAreNotEmpty(sinks: seq<Sink>, events: seq<Event>, i: nat, k: nat)
    requires i < |sinks| && k < |Run(sinks, events).outputs[i]|
    ensures Run(sinks, events).outputs[i][k].text != ""
  {
    if events != [] {
      var before := Run(sinks, events[..|events| - 1]);
      if k < |before.outputs[i]| {
        DeliveredLinesAreNotEmpty(sinks, events[..|events| - 1], i, k);
      }
    }
  }

  // ---- One line from start to end ----

  function Puts(text: string): seq<Event> {
    seq(|text|, i requires 0 <= i < |text| => Put(Some(text[i])))
  }

  lemma RunAppend(sinks: seq<Sink>, events: seq<Event>, e: Event)
    ensures Run(sinks, events + [e]) == Step(sinks, Run(sinks, events), e)
  {
    assert (events + [e])[..|events|] == events;
  }

  lemma {:induction false} PutsFillBuffer(sinks: seq<Sink>, events: seq<Event>, text: string)
    requires '\n' !in text
    ensures var s := Run(sinks, events); Run(sinks, events + Puts(text)) == s.(buffer := s.buffer + text)
  {
    if text == "" {
      assert events + Puts(text) == events;
    } else {
      var n := |text| - 1;
      PutsFillBuffer(sinks, events, text[..n]);
      assert Puts(text) == Puts(text[..n]) + [Put(Some(text[n]))];
      assert events + Puts(text) == (events + Puts(text[..n])) + [Put(Some(text[n]))];
      RunAppend(sinks, events + Puts(text[..n]), Put(Some(text[n])));
    }
  }

  /** After some events, a line as the logging macros write it: its severity, type and condition, its text, and a
      newline or a flush. */
  function WithLine(events: seq<Event>, severity: int, kind: Type, condition: bool, text: string, end: Option<char>):
    seq<Event>
  {
    WithStart(events, severity, kind, condition) + Puts(text) + [Put(end)]
  }

  function WithStart(events: seq<Event>, severity: int, kind: Type, condition: bool): seq<Event> {
    events + [SetSeverity(severity)] + [SetType(kind)] + [SetConditional(condition)]
  }

  lemma LineStarts(sinks: seq<Sink>, events: seq<Event>, severity: int, kind: Type, condition: bool)
    requires Run(sinks, events).buffer == ""
    ensures Run(sinks, WithStart(events, severity, kind, condition))
            == State("", severity, kind, condition, Run(sinks, events).outputs)
  {
    var a := events + [SetSeverity(severity)];
    var b := a + [SetType(kind)];
    RunAppend(sinks, events, SetSeverity(severity));
    RunAppend(sinks, a, SetType(kind));
    RunAppend(sinks, b, SetConditional(condition));
  }

  lemma LineEnds(sinks: seq<Sink>, s: State, end: Option<char>, i: nat)
    requires |s.outputs| == |sinks| && end in {None, Some('\n')} && i < |sinks|
    ensures var t := Step(sinks, s, Put(end));
            && t.buffer == ""
            && t.outputs[i]
               == s.outputs[i]
                  + if s.buffer != "" && s.condition && s.severity >= sinks[i].severity
                       && (s.kind == All || sinks[i].kind == All || s.kind == sinks[i].kind)
                    then [Message(s.severity, s.kind, s.buffer)] else []
  {
    OutputAfter(sinks, s, Put(end), i);
  }

  /** When no line has begun, whatever came before: the line reaches a sink exactly once, under its own severity and
      type, if it is not empty, its condition is true, its severity is at least the sink's, and its type is the sink's
      or one of the two is All; otherwise the sink gets nothing. */
  lemma LineIsDeliveredIff(sinks: seq<Sink>, events: seq<Event>, severity: int, kind: Type, condition: bool,
                           text: string, end: Option<char>, i: nat)
    requires Run(sinks, events).buffer == "" && '\n' !in text && end in {None, Some('\n')} && i < |sinks|
    ensures var t := Run(sinks, WithLine(events, severity, kind, condition, text, end));
            && t.buffer == ""
            && t.outputs[i]
               == Run(sinks, events).outputs[i]
                  + if text != "" && condition && severity >= sinks[i].severity
                       && (kind == All || sinks[i].kind == All || kind == sinks[i].kind)
                    then [Message(severity, kind, text)] else []
  {
    var started := WithStart(events, severity, kind, condition);
    LineStarts(sinks, events, severity, kind, condition);
    PutsFillBuffer(sinks, started, text);
    RunAppend(sinks, started + Puts(text), Put(end));
    assert "" + text == text;
    LineEnds(sinks, State(text, severity, kind, condition, Run(sinks, events).outputs), end, i);
  }

  /** A severity that differs from the one in force first sends the line begun on its way, under the old one; the same
      severity changes nothing at all. */
  lemma SeverityEndsLineIff(sinks: seq<Sink>, s: State, severity: int, i: nat)
    requires |s.outputs| == |sinks| && i < |sinks|
    ensures var t := Step(sinks, s, SetSeverity(severity));
            if severity == s.severity then t == s
            else
              && t.buffer == "" && t.severity == severity && t.kind == Normal && t.condition
              && t.outputs[i]
                 == s.outputs[i]
                    + if s.buffer != "" && s.condition && s.severity >= sinks[i].severity
                         && (s.kind == All || sinks[i].kind == All || s.kind == sinks[i].kind)
                      then [Message(s.severity, s.kind, s.buffer)] else []
  {
    OutputAfter(sinks, s, SetSeverity(severity), i);
  }

  /** A severity is documented to reset the metadata of the line. It does so exactly when it differs from the one in
      force or there is nothing to reset; otherwise the type and condition of an earlier line carry over. */
  lemma SeverityResetsIff(sinks: seq<Sink>, s: State, severity: int)
    requires |s.outputs| == |sinks|
    ensures var t := Step(sinks, s, SetSeverity(severity));
            t.kind == Normal && t.condition <==> severity != s.severity || (s.kind == Normal && s.condition)
  {
  }

  /** So a severity can leave an earlier type in force: the type set by the first of these events outlives the
      second, which names the severity of a fresh log. */
  lemma SeverityNeedNotReset(sinks: seq<Sink>)
    ensures Run(sinks, [SetType(Special), SetSeverity(TRACE)]).kind == Special
  {
    var a := [SetType(Special)];
    assert a[..0] == [] && (a + [SetSeverity(TRACE)])[..1] == a;
    assert Run(sinks, a) == Initial(sinks).(kind := Special);
    assert a + [SetSeverity(TRACE)] == [SetType(Special), SetSeverity(TRACE)];
  }

  // ---- Types ----

  /** The characters fed, each with the type in force when it was fed. */
  function FedTypes(sinks: seq<Sink>, events: seq<Event>): seq<Written<Type>> {
    if events == [] then []
    else
      var s, e := Run(sinks, events[..|events| - 1]), events[|events| - 1];
      FedTypes(sinks, events[..|events| - 1])
      + if e.Put? && e.c.Some? && e.c != Some('\n') then [Written(e.c.value, s.kind)] else []
  }

  function LeavingTypes(flushes: seq<Flushed>): seq<Written<Type>> {
    if flushes == [] then []
    else
      var f := flushes[|flushes| - 1];
      LeavingTypes(flushes[..|flushes| - 1]) + Under(f.line.text, f.line.kind)
  }

  /** All characters that have left did so under the type they were written under, and those in the buffer would do so
      if they left now. */
  ghost predicate TypesArePure(sinks: seq<Sink>, events: seq<Event>) {
    var s := Run(sinks, events);
    FedTypes(sinks, events) == LeavingTypes(Flushes(sinks, events)) + Under(s.buffer, s.kind)
  }

  /** The event sets another type on a line that has begun. */
  predicate Retypes(s: State, e: Event) {
    e.SetType? && e.kind != s.kind && s.buffer != ""
  }

  lemma LeavingTypesAppend(flushes: seq<Flushed>, f: Flushed)
    ensures LeavingTypes(flushes + [f]) == LeavingTypes(flushes) + Under(f.line.text, f.line.kind)
  {
    assert (flushes + [f])[..|flushes|] == flushes;
  }

  /** The type of a line changes only with its buffer empty, unless the event retypes it. */
  lemma TypeAfter(sinks: seq<Sink>, s: State, e: Event)
    requires |s.outputs| == |sinks|
    ensures var t := Step(sinks, s, e); t.buffer == "" || (t.kind == s.kind <==> !Retypes(s, e))
  {
  }

  lemma UnderAnother(prefix: seq<Written<Type>>, text: string, a: Type, b: Type)
    requires text != ""
    ensures prefix + Under(text, a) == prefix + Under(text, b) <==> a == b
  {
    assert (prefix + Under(text, a))[|prefix|] == Written(text[0], a);
    assert (prefix + Under(text, b))[|prefix|] == Written(text[0], b);
  }

  lemma FedTypesNext(sinks: seq<Sink>, events: seq<Event>)
    requires events != []
    ensures var earlier, e := events[..|events| - 1], events[|events| - 1];
            FedTypes(sinks, events)
            == if e.Put? && e.c.Some? && e.c != Some('\n') then
                 FedTypes(sinks, earlier) + [Written(e.c.value, Run(sinks, earlier).kind)]
               else FedTypes(sinks, earlier)
  {
  }

  /** One step, with `fed` the characters fed before it and `left` those that have left. */
  lemma PureStep(sinks: seq<Sink>, s: State, e: Event, fed: seq<Written<Type>>, left: seq<Written<Type>>)
    requires |s.outputs| == |sinks| && fed == left + Under(s.buffer, s.kind)
    ensures var t := Step(sinks, s, e);
            var nextFed := if e.Put? && e.c.Some? && e.c != Some('\n') then fed + [Written(e.c.value, s.kind)] else fed;
            var nextLeft := if Syncs(s, e) && s.buffer != "" then left + Under(s.buffer, s.kind) else left;
            nextFed == nextLeft + Under(t.buffer, t.kind) <==> !Retypes(s, e)
  {
    var t := Step(sinks, s, e);
    BufferAfter(sinks, s, e);
    TypeAfter(sinks, s, e);
    if e.Put? && e.c.Some? && e.c != Some('\n') {
      UnderAppend(s.buffer, e.c.value, s.kind);
    } else if t.buffer == "" {
      assert Under(t.buffer, t.kind) == [];
      assert s.buffer == "" ==> Under(s.buffer, s.kind) == [];
    } else {
      UnderAnother(left, s.buffer, s.kind, t.kind);
    }
  }

  lemma PureNext(sinks: seq<Sink>, events: seq<Event>)
    requires events != [] && TypesArePure(sinks, events[..|events| - 1])
    ensures TypesArePure(sinks, events) <==> !Retypes(Run(sinks, events[..|events| - 1]), events[|events| - 1])
  {
    var earlier, e := events[..|events| - 1], events[|events| - 1];
    var s := Run(sinks, earlier);
    FedTypesNext(sinks, events);
    FlushedNext(sinks, events);
    LeavingTypesAppend(Flushes(sinks, earlier), Flushed(Line(s), s.condition));
    PureStep(sinks, s, e, FedTypes(sinks, earlier), LeavingTypes(Flushes(sinks, earlier)));
  }

  /** At every point of the run. */
  ghost predicate AlwaysPure(sinks: seq<Sink>, events: seq<Event>) {
    forall n :: 0 <= n <= |events| ==> TypesArePure(sinks, events[..n])
  }

  ghost predicate NeverRetypes(sinks: seq<Sink>, events: seq<Event>) {
    forall i :: 0 <= i < |events| ==> !Retypes(Run(sinks, events[..i]), events[i])
  }

  lemma AlwaysPureNext(sinks: seq<Sink>, events: seq<Event>)
    requires events != []
    ensures AlwaysPure(sinks, events)
            <==> AlwaysPure(sinks, events[..|events| - 1]) && TypesArePure(sinks, events)
  {
    var earlier := events[..|events| - 1];
    assert events[..|events|] == events;
    if AlwaysPure(sinks, events) {
      forall n | 0 <= n <= |earlier| ensures TypesArePure(sinks, earlier[..n]) {
        assert earlier[..n] == events[..n];
      }
    } else {
      var n :| 0 <= n <= |events| && !TypesArePure(sinks, events[..n]);
      assert n < |events| ==> earlier[..n] == events[..n];
    }
  }

  lemma NeverRetypesNext(sinks: seq<Sink>, events: seq<Event>)
    requires events != []
    ensures NeverRetypes(sinks, events)
            <==> && NeverRetypes(sinks, events[..|events| - 1])
                 && !Retypes(Run(sinks, events[..|events| - 1]), events[|events| - 1])
  {
    var m := |events| - 1;
    forall i | 0 <= i < m ensures events[..m][..i] == events[..i] && events[..m][i] == events[i] {
    }
  }

  /** Exactly when types are pure: at every point of a run each character has left, or would leave, under the type it
      was written under, if and only if no other type is ever set while the buffer holds a part of a line. */
  lemma {:induction false} TypesArePureIff(sinks: seq<Sink>, events: seq<Event>)
    ensures AlwaysPure(sinks, events) <==> NeverRetypes(sinks, events)
  {
    if events == [] {
      assert Under("", Normal) == [] && TypesArePure(sinks, events[..0]);
    } else {
      var earlier := events[..|events| - 1];
      TypesArePureIff(sinks, earlier);
      AlwaysPureNext(sinks, events);
      NeverRetypesNext(sinks, events);
      if AlwaysPure(sinks, earlier) {
        assert earlier[..|earlier|] == earlier;
        PureNext(sinks, events);
      }
    }
  }

  /** Unlike the severity, the type of a line is the one in force when it leaves: characters written to a normal line
      are delivered as special. */
  lemma TypeIsNotPure(c: char)
    requires c != '\n'
    ensures Run([Sink(TRACE, Special)], [Put(Some(c)), SetType(Special), Put(None)]).outputs[0]
            == [Message(TRACE, Special, [c])]
  {
    var sinks, a := [Sink(TRACE, Special)], [Put(Some(c))];
    var b := a + [SetType(Special)];
    var d := b + [Put(None)];
    assert a[..0] == [] && b[..1] == a && d[..2] == b;
    assert Run(sinks, a) == Initial(sinks).(buffer := [c]);
    assert Run(sinks, b) == Initial(sinks).(buffer := [c], kind := Special);
    assert Run(sinks, d).outputs[0] == [] + [Message(TRACE, Special, [c])];
    assert d == [Put(Some(c)), SetType(Special), Put(None)];
  }
}
