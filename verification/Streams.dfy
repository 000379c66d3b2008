/**
 Stream consumers: one goroutine per ConsumeStream call, each turning the deltas of its channel into events.
 All of them, the producers and the cancellations are interleaved one action at a time.
 */
module Streams {
  import opened Collections

  datatype TokenUsage = TokenUsage(input: int, output: int, total: int)

  datatype Delta = Delta(kind: string, content: string, toolCalls: seq<string>, done: bool, usage: Option<TokenUsage>,
    error: string)

  datatype EventType = EventToken | EventToolCall | EventToolResult | EventDone | EventError

  datatype StreamEvent = StreamEvent(
    kind: EventType, session: string, content: string, toolCalls: seq<string>, usage: Option<TokenUsage>, error: string)

  predicate Final(d: Delta) {
    d.error != "" || d.done
  }

  predicate FinalEvent(e: StreamEvent) {
    e.kind == EventDone || e.kind == EventError
  }

  function Closing(session: string): StreamEvent {
    StreamEvent(EventDone, session, "", [], None, "")
  }

  /** The event one delta gives rise to. */
  function EventOf(session: string, d: Delta): StreamEvent {
    if d.error != "" then StreamEvent(EventError, session, "", [], None, d.error)
    else if d.done then StreamEvent(EventDone, session, "", [], d.usage, "")
    else if d.kind == "tool_call_start" then StreamEvent(EventToolCall, session, d.content, d.toolCalls, None, "")
    else if d.kind == "tool_call_end" then StreamEvent(EventToolResult, session, d.content, [], None, "")
    else StreamEvent(EventToken, session, d.content, [], None, "")
  }

  function Image(session: string, deltas: seq<Delta>): (events: seq<StreamEvent>)
    ensures |events| == |deltas|
    ensures forall i :: 0 <= i < |deltas| ==> events[i] == EventOf(session, deltas[i])
  {
    seq(|deltas|, i requires 0 <= i < |deltas| => EventOf(session, deltas[i]))
  }

  lemma ImageAppend(session: string, deltas: seq<Delta>, d: Delta)
    ensures Image(session, deltas + [d]) == Image(session, deltas) + [EventOf(session, d)]
  {
  }

  // ---- What a consumer may have emitted ------------------------------------------------------

  /** How a consumer's loop ended, if it did. */
  datatype Ending = Looping | OnDelta | OnClose | OnCancel

  function EventsFor(session: string, consumed: seq<Delta>, ending: Ending): seq<StreamEvent> {
    Image(session, consumed) + if ending == OnClose then [Closing(session)] else []
  }

  /** A final delta ends the loop, and only the last delta consumed can be one. */
  ghost predicate ConsumedWell(consumed: seq<Delta>, ending: Ending) {
    && (forall i :: 0 <= i < |consumed| - 1 ==> !Final(consumed[i]))
    && (ending == OnDelta <==> consumed != [] && Final(consumed[|consumed| - 1]))
  }

  /** At most one done or error event, and nothing after it. */
  lemma FinalEventIsLast(session: string, consumed: seq<Delta>, ending: Ending)
    requires ConsumedWell(consumed, ending)
    ensures var events := EventsFor(session, consumed, ending);
            && (forall i :: 0 <= i < |events| - 1 ==> !FinalEvent(events[i]))
            && (ending == OnDelta || ending == OnClose <==> events != [] && FinalEvent(events[|events| - 1]))
            && (forall i :: 0 <= i < |events| ==> events[i].session == session)
  {
  }

  lemma NoClosingEvent(session: string, consumed: seq<Delta>, ending: Ending)
    requires ending != OnClose
    ensures EventsFor(session, consumed, ending) == Image(session, consumed)
  {
  }

  function Contents(deltas: seq<Delta>): string {
    if deltas == [] then ""
    else
      var n := |deltas| - 1;
      Contents(deltas[..n]) + if Final(deltas[n]) then "" else deltas[n].content
  }

  function EventContents(events: seq<StreamEvent>): string {
    if events == [] then ""
    else
      var n := |events| - 1;
      EventContents(events[..n]) + if FinalEvent(events[n]) then "" else events[n].content
  }

  /** What a listener can tell about the delta from its event: everything the event's kind leaves room for. */
  ghost predicate Reports(e: StreamEvent, session: string, d: Delta) {
    && e.session == session && e.error == d.error
    && (e.kind == EventError <==> d.error != "")
    && (e.kind == EventDone <==> d.error == "" && d.done)
    && (e.kind == EventToolCall <==> d.error == "" && !d.done && d.kind == "tool_call_start")
    && (e.kind == EventToolResult <==> d.error == "" && !d.done && d.kind == "tool_call_end")
    && e.content == (if e.kind == EventError || e.kind == EventDone then "" else d.content)
    && e.usage == (if e.kind == EventDone then d.usage else None)
    && e.toolCalls == (if e.kind == EventToolCall then d.toolCalls else [])
  }

  lemma EventTells(session: string, d: Delta)
    ensures Reports(EventOf(session, d), session, d)
    ensures FinalEvent(EventOf(session, d)) == Final(d)
  {
  }

  /** The event of each delta taken reports it; a close adds one plain "done". */
  ghost predicate AllReported(session: string, consumed: seq<Delta>, ending: Ending, events: seq<StreamEvent>) {
    && |events| == |consumed| + (if ending == OnClose then 1 else 0)
    && (forall i :: 0 <= i < |consumed| ==> Reports(events[i], session, consumed[i]))
    && (ending == OnClose ==> events[|consumed|] == StreamEvent(EventDone, session, "", [], None, ""))
  }

  lemma EveryDeltaReported(session: string, consumed: seq<Delta>, ending: Ending)
    ensures AllReported(session, consumed, ending, EventsFor(session, consumed, ending))
  {
    forall i | 0 <= i < |consumed| ensures Reports(EventsFor(session, consumed, ending)[i], session, consumed[i]) {
      EventTells(session, consumed[i]);
    }
  }

  lemma ContentsAppend(events: seq<StreamEvent>, e: StreamEvent)
    ensures EventContents(events + [e]) == EventContents(events) + if FinalEvent(e) then "" else e.content
  {
    assert (events + [e])[..|events|] == events;
  }

  lemma {:induction false} ImageContents(session: string, deltas: seq<Delta>)
    ensures EventContents(Image(session, deltas)) == Contents(deltas)
  {
    if deltas == [] {
    } else {
      var n := |deltas| - 1;
      ImageContents(session, deltas[..n]);
      InitAndLast(deltas);
      EventTells(session, deltas[n]);
      ImageAppend(session, deltas[..n], deltas[n]);
      ContentsAppend(Image(session, deltas[..n]), EventOf(session, deltas[n]));
    }
  }

  /** No content is lost, repeated or reordered between deltas and events. */
  lemma ContentPreserved(session: string, consumed: seq<Delta>, ending: Ending)
    ensures EventContents(EventsFor(session, consumed, ending)) == Contents(consumed)
  {
    ImageContents(session, consumed);
    var image, events := Image(session, consumed), EventsFor(session, consumed, ending);
    if ending == OnClose {
      assert events[..|image|] == image;
    } else {
      assert events == image;
    }
  }

  // ---- One consumer's loop -------------------------------------------------------------------

  /** What the select statement takes when more than one case is ready: the channel, or the cancellation. */
  type Choices = nat -> bool

  /** The loop took `n` deltas, emitted their events and ended (or waits) as `ending` says, for a reason. */
  ghost predicate LoopEnds(session: string, deltas: seq<Delta>, closes: bool, cancelled: Choices,
                           n: nat, ending: Ending, events: seq<StreamEvent>) {
    && n <= |deltas| && ConsumedWell(deltas[..n], ending)
    && events == EventsFor(session, deltas[..n], ending)
    && (forall j :: 0 <= j < n ==> !cancelled(j))
    && (ending == OnClose ==> n == |deltas| && closes)
    && (ending == Looping ==> n == |deltas| && !closes)
    && (ending == OnCancel ==> cancelled(n))
  }

  /** The loop has taken `i` deltas, none of them final, and has not seen a cancellation. */
  ghost predicate Underway(session: string, deltas: seq<Delta>, cancelled: Choices, i: nat, events: seq<StreamEvent>) {
    && i <= |deltas|
    && (forall j :: 0 <= j < i ==> !cancelled(j) && !Final(deltas[j]))
    && events == Image(session, deltas[..i])
  }

  lemma Cancels(session: string, deltas: seq<Delta>, closes: bool, cancelled: Choices, i: nat, events: seq<StreamEvent>)
    requires Underway(session, deltas, cancelled, i, events) && cancelled(i)
    ensures LoopEnds(session, deltas, closes, cancelled, i, OnCancel, events)
  {
    NoClosingEvent(session, deltas[..i], OnCancel);
  }

  lemma RunsDry(session: string, deltas: seq<Delta>, closes: bool, cancelled: Choices, events: seq<StreamEvent>)
    requires Underway(session, deltas, cancelled, |deltas|, events)
    ensures LoopEnds(session, deltas, closes, cancelled, |deltas|, if closes then OnClose else Looping,
                     if closes then events + [Closing(session)] else events)
  {
    assert deltas[..|deltas|] == deltas;
    NoClosingEvent(session, deltas, Looping);
  }

  lemma TakesOne(session: string, deltas: seq<Delta>, closes: bool, cancelled: Choices, i: nat,
                 events: seq<StreamEvent>)
    requires Underway(session, deltas, cancelled, i, events) && i < |deltas| && !cancelled(i)
    ensures var more := events + [EventOf(session, deltas[i])];
            if Final(deltas[i]) then LoopEnds(session, deltas, closes, cancelled, i + 1, OnDelta, more)
            else Underway(session, deltas, cancelled, i + 1, more)
  {
    PrefixStep([], deltas, i);
    ImageAppend(session, deltas[..i], deltas[i]);
    NoClosingEvent(session, deltas[..i + 1], OnDelta);
  }

  /**
   The goroutine of one consumer: `deltas` is what the channel will deliver, `closes` whether it is closed
   afterwards, and `cancelled(i)` whether the context is seen cancelled at the i-th turn of the loop. A loop
   that finds an empty open channel waits; here it stops there, as it may for ever.
   */
  method ConsumeLoop(session: string, deltas: seq<Delta>, closes: bool, cancelled: Choices)
    returns (events: seq<StreamEvent>)
    ensures exists n, ending :: LoopEnds(session, deltas, closes, cancelled, n, ending, events)
  {
    events := [];
    var i := 0;
    while true
      invariant Underway(session, deltas, cancelled, i, events)
      decreases |deltas| - i
    {
      if cancelled(i) {
        Cancels(session, deltas, closes, cancelled, i, events);
        return;
      }
      if i == |deltas| {
        RunsDry(session, deltas, closes, cancelled, events);
        if closes {
          events := events + [StreamEvent(EventDone, session, "", [], None, "")];
        }
        return;
      }
      var delta := deltas[i];
      TakesOne(session, deltas, closes, cancelled, i, events);
      i := i + 1;
      if delta.error != "" {
        events := events + [StreamEvent(EventError, session, "", [], None, delta.error)];
        return;
      }
      if delta.done {
        events := events + [StreamEvent(EventDone, session, "", [], delta.usage, "")];
        return;
      }
      var event := StreamEvent(EventToken, session, delta.content, [], None, "");
      if delta.kind == "tool_call_start" {
        event := event.(kind := EventToolCall, toolCalls := delta.toolCalls);
      } else if delta.kind == "tool_call_end" {
        event := event.(kind := EventToolResult);
      }
      events := events + [event];
    }
  }

  // ---- All consumers together ----------------------------------------------------------------

  datatype Consumer = Consumer(
    session: string,
    sent: seq<Delta>,       // everything put on its channel so far
    closed: bool,
    consumed: nat,          // how many of those it has taken
    cancelled: bool,
    ending: Ending,
    cleaned: bool)          // its deferred clean-up has run

  function Started(session: string): Consumer {
    Consumer(session, [], false, 0, false, Looping, false)
  }

  /** `streams` holds, per session, whose cancel function is registered; `log` is what the emitters saw. */
  datatype System = System(consumers: seq<Consumer>, streams: map<string, nat>, log: seq<(nat, StreamEvent)>)

  datatype Action =
    | ConsumeStream(session: string)
    | Send(consumer: nat, delta: Delta)
    | Close(consumer: nat)
    | Receive(consumer: nat)        // the select takes the channel case
    | SeeCancel(consumer: nat)      // the select takes the cancellation case
    | CleanUp(consumer: nat)        // the deferred delete, once, some time after the loop ended
    | CancelContext(consumer: nat)  // the context passed in is cancelled
    | CancelStream(session: string)
    | CancelAll

  function Cancelled(s: System, k: nat): System {
    if k < |s.consumers| then s.(consumers := s.consumers[k := s.consumers[k].(cancelled := true)]) else s
  }

  /** Consumer `k` moves on to `c` and the emitters see `e`. */
  function Emit(s: System, k: nat, c: Consumer, e: StreamEvent): System
    requires k < |s.consumers|
  {
    System(s.consumers[k := c], s.streams, s.log + [(k, e)])
  }

  function AfterTaking(c: Consumer): Consumer
    requires c.consumed < |c.sent|
  {
    c.(consumed := c.consumed + 1, ending := if Final(c.sent[c.consumed]) then OnDelta else Looping)
  }

  function Took(s: System, k: nat): System
    requires k < |s.consumers| && s.consumers[k].consumed < |s.consumers[k].sent|
  {
    var c := s.consumers[k];
    Emit(s, k, AfterTaking(c), EventOf(c.session, c.sent[c.consumed]))
  }

  function SawClose(s: System, k: nat): System
    requires k < |s.consumers|
  {
    var c := s.consumers[k];
    Emit(s, k, c.(ending := OnClose), Closing(c.session))
  }

  /** Actions that are not enabled leave the system as it is. */
  function Apply(s: System, a: Action): System {
    match a
    case ConsumeStream(session) =>
      var s' := if session in s.streams then Cancelled(s, s.streams[session]) else s;
      s'.(consumers := s'.consumers + [Started(session)],
          streams := s'.streams[session := |s.consumers|])
    case Send(k, d) =>
      if k < |s.consumers| && !s.consumers[k].closed then
        s.(consumers := s.consumers[k := s.consumers[k].(sent := s.consumers[k].sent + [d])])
      else s
    case Close(k) =>
      if k < |s.consumers| then s.(consumers := s.consumers[k := s.consumers[k].(closed := true)]) else s
    case Receive(k) =>
      if k < |s.consumers| && s.consumers[k].ending == Looping then
        var c := s.consumers[k];
        if c.consumed < |c.sent| then Took(s, k) else if c.closed then SawClose(s, k) else s
      else s
    case SeeCancel(k) =>
      if k < |s.consumers| && s.consumers[k].ending == Looping && s.consumers[k].cancelled then
        s.(consumers := s.consumers[k := s.consumers[k].(ending := OnCancel)])
      else s
    case CleanUp(k) =>
      if k < |s.consumers| && s.consumers[k].ending != Looping && !s.consumers[k].cleaned then
        s.(consumers := s.consumers[k := s.consumers[k].(cleaned := true)],
           streams := s.streams - {s.consumers[k].session})
      else s
    case CancelContext(k) => Cancelled(s, k)
    case CancelStream(session) => if session in s.streams then Cancelled(s, s.streams[session]) else s
    case CancelAll =>
      System(seq(|s.consumers|, k requires 0 <= k < |s.consumers| =>
               if k in s.streams.Values then s.consumers[k].(cancelled := true) else s.consumers[k]),
             map[], s.log)
  }

  function Run(actions: seq<Action>): System {
    if actions == [] then System([], map[], [])
    else
      var n := |actions| - 1;
      Apply(Run(actions[..n]), actions[n])
  }

  /** The events of one consumer, in the order the emitters saw them. */
  function EventsOf(log: seq<(nat, StreamEvent)>, k: nat): seq<StreamEvent> {
    if log == [] then []
    else
      var n := |log| - 1;
      EventsOf(log[..n], k) + if log[n].0 == k then [log[n].1] else []
  }

  lemma EventsAppend(log: seq<(nat, StreamEvent)>, k: nat, e: StreamEvent, other: nat)
    ensures EventsOf(log + [(k, e)], other) == if other == k then EventsOf(log, other) + [e] else EventsOf(log, other)
  {
  }

  /** A consumer's events are the image of the prefix of its deltas that it has taken. */
  ghost predicate Faithful(c: Consumer, events: seq<StreamEvent>) {
    && c.consumed <= |c.sent|
    && ConsumedWell(c.sent[..c.consumed], c.ending)
    && events == EventsFor(c.session, c.sent[..c.consumed], c.ending)
    && (c.ending == OnClose ==> c.closed && c.consumed == |c.sent|)
    && (c.ending == OnCancel ==> c.cancelled)
  }

  ghost predicate AllFaithful(s: System) {
    ConsumersFaithful(s.consumers, s.log) && LogKnown(s.consumers, s.log) && StreamsKnown(s.consumers, s.streams)
  }

  ghost predicate ConsumersFaithful(consumers: seq<Consumer>, log: seq<(nat, StreamEvent)>) {
    forall k :: 0 <= k < |consumers| ==> Faithful(consumers[k], EventsOf(log, k))
  }

  ghost predicate LogKnown(consumers: seq<Consumer>, log: seq<(nat, StreamEvent)>) {
    forall i :: 0 <= i < |log| ==> log[i].0 < |consumers|
  }

  /** Whoever is registered for a session consumes that session's stream. */
  ghost predicate StreamsKnown(consumers: seq<Consumer>, streams: map<string, nat>) {
    forall session :: session in streams ==>
      streams[session] < |consumers| && consumers[streams[session]].session == session
  }

  lemma {:induction false} NoEventsYet(log: seq<(nat, StreamEvent)>, k: nat)
    requires forall i :: 0 <= i < |log| ==> log[i].0 < k
    ensures EventsOf(log, k) == []
  {
    if log == [] {
    } else {
      NoEventsYet(log[..|log| - 1], k);
    }
  }

  lemma EmitFaithful(s: System, k: nat, c: Consumer, e: StreamEvent)
    requires AllFaithful(s) && k < |s.consumers|
    requires Faithful(c, EventsOf(s.log, k) + [e]) && c.session == s.consumers[k].session
    ensures AllFaithful(Emit(s, k, c, e))
  {
    var consumers, log := s.consumers[k := c], s.log + [(k, e)];
    forall j | 0 <= j < |consumers|
      ensures Faithful(consumers[j], EventsOf(log, j))
    {
      EventsAppend(s.log, k, e, j);
      assert Faithful(s.consumers[j], EventsOf(s.log, j));
    }
    SameSessionsKnown(s, k, c, e);
  }

  lemma SameSessionsKnown(s: System, k: nat, c: Consumer, e: StreamEvent)
    requires LogKnown(s.consumers, s.log) && StreamsKnown(s.consumers, s.streams)
    requires k < |s.consumers| && c.session == s.consumers[k].session
    ensures LogKnown(s.consumers[k := c], s.log + [(k, e)]) && StreamsKnown(s.consumers[k := c], s.streams)
  {
  }

  lemma TookOne(c: Consumer, events: seq<StreamEvent>)
    requires Faithful(c, events) && c.ending == Looping && c.consumed < |c.sent|
    ensures Faithful(AfterTaking(c), events + [EventOf(c.session, c.sent[c.consumed])])
  {
    var before, d := c.sent[..c.consumed], c.sent[c.consumed];
    PrefixStep([], c.sent, c.consumed);
    ImageAppend(c.session, before, d);
    NoClosingEvent(c.session, before, Looping);
    NoClosingEvent(c.session, before + [d], AfterTaking(c).ending);
  }

  lemma SawCloseOne(c: Consumer, events: seq<StreamEvent>)
    requires Faithful(c, events) && c.ending == Looping && c.consumed == |c.sent| && c.closed
    ensures Faithful(c.(ending := OnClose), events + [Closing(c.session)])
  {
  }

  lemma TookFaithful(s: System, k: nat)
    requires AllFaithful(s) && k < |s.consumers| && s.consumers[k].ending == Looping
    requires s.consumers[k].consumed < |s.consumers[k].sent|
    ensures AllFaithful(Took(s, k))
  {
    var c := s.consumers[k];
    TookOne(c, EventsOf(s.log, k));
    EmitFaithful(s, k, AfterTaking(c), EventOf(c.session, c.sent[c.consumed]));
  }

  lemma SawCloseFaithful(s: System, k: nat)
    requires AllFaithful(s) && k < |s.consumers| && s.consumers[k].ending == Looping
    requires s.consumers[k].consumed == |s.consumers[k].sent| && s.consumers[k].closed
    ensures AllFaithful(SawClose(s, k))
  {
    var c := s.consumers[k];
    SawCloseOne(c, EventsOf(s.log, k));
    EmitFaithful(s, k, c.(ending := OnClose), Closing(c.session));
  }

  /** Changes to a consumer that its events do not show. */
  lemma QuietUpdateFaithful(s: System, k: nat, c: Consumer)
    requires AllFaithful(s) && k < |s.consumers|
    requires Faithful(c, EventsOf(s.log, k)) && c.session == s.consumers[k].session
    ensures AllFaithful(s.(consumers := s.consumers[k := c]))
  {
  }

  lemma CancelledFaithful(s: System, k: nat)
    requires AllFaithful(s)
    ensures AllFaithful(Cancelled(s, k))
  {
  }

  lemma StartedFaithful(s: System, session: string)
    requires AllFaithful(s)
    ensures AllFaithful(s.(consumers := s.consumers + [Started(session)],
                           streams := s.streams[session := |s.consumers|]))
  {
    NoEventsYet(s.log, |s.consumers|);
    assert EventsFor(session, [], Looping) == [];
    assert Faithful(Started(session), EventsOf(s.log, |s.consumers|));
  }

  lemma SendFaithful(s: System, k: nat, d: Delta)
    requires AllFaithful(s)
    ensures AllFaithful(Apply(s, Send(k, d)))
  {
    if k < |s.consumers| && !s.consumers[k].closed {
      var c := s.consumers[k];
      assert Faithful(c, EventsOf(s.log, k));
      assert (c.sent + [d])[..c.consumed] == c.sent[..c.consumed];
      QuietUpdateFaithful(s, k, c.(sent := c.sent + [d]));
    }
  }

  lemma CancelAllFaithful(s: System)
    requires AllFaithful(s)
    ensures AllFaithful(Apply(s, CancelAll))
  {
  }

  lemma CleanUpFaithful(s: System, k: nat)
    requires AllFaithful(s)
    ensures AllFaithful(Apply(s, CleanUp(k)))
  {
    if k < |s.consumers| && s.consumers[k].ending != Looping && !s.consumers[k].cleaned {
      assert Faithful(s.consumers[k], EventsOf(s.log, k));
      QuietUpdateFaithful(s, k, s.consumers[k].(cleaned := true));
    }
  }

  lemma CancelContextFaithful(s: System, k: nat)
    requires AllFaithful(s)
    ensures AllFaithful(Apply(s, CancelContext(k)))
  {
    CancelledFaithful(s, k);
  }

  lemma CancelStreamFaithful(s: System, session: string)
    requires AllFaithful(s)
    ensures AllFaithful(Apply(s, CancelStream(session)))
  {
    if session in s.streams {
      assert Apply(s, CancelStream(session)) == Cancelled(s, s.streams[session]);
      CancelledFaithful(s, s.streams[session]);
    }
  }

  lemma ConsumeFaithful(s: System, session: string)
    requires AllFaithful(s)
    ensures AllFaithful(Apply(s, ConsumeStream(session)))
  {
    var s' := if session in s.streams then Cancelled(s, s.streams[session]) else s;
    if session in s.streams {
      CancelledFaithful(s, s.streams[session]);
    }
    StartedFaithful(s', session);
  }

  lemma CloseFaithful(s: System, k: nat)
    requires AllFaithful(s)
    ensures AllFaithful(Apply(s, Close(k)))
  {
    if k < |s.consumers| {
      assert Faithful(s.consumers[k], EventsOf(s.log, k));
      QuietUpdateFaithful(s, k, s.consumers[k].(closed := true));
    }
  }

  lemma SeeCancelFaithful(s: System, k: nat)
    requires AllFaithful(s)
    ensures AllFaithful(Apply(s, SeeCancel(k)))
  {
    if k < |s.consumers| && s.consumers[k].ending == Looping && s.consumers[k].cancelled {
      assert Faithful(s.consumers[k], EventsOf(s.log, k));
      QuietUpdateFaithful(s, k, s.consumers[k].(ending := OnCancel));
    }
  }

  lemma ApplyFaithful(s: System, a: Action)
    requires AllFaithful(s)
    ensures AllFaithful(Apply(s, a))
  {
    match a
    case ConsumeStream(session) =>
      ConsumeFaithful(s, session);
    case Send(k, d) =>
      SendFaithful(s, k, d);
    case Close(k) =>
      CloseFaithful(s, k);
    case Receive(k) => ReceiveFaithful(s, k);
    case SeeCancel(k) =>
      SeeCancelFaithful(s, k);
    case CleanUp(k) => CleanUpFaithful(s, k);
    case CancelContext(k) => CancelContextFaithful(s, k);
    case CancelStream(session) => CancelStreamFaithful(s, session);
    case CancelAll => CancelAllFaithful(s);
  }

  lemma ReceiveFaithful(s: System, k: nat)
    requires AllFaithful(s)
    ensures AllFaithful(Apply(s, Receive(k)))
  {
    if k < |s.consumers| && s.consumers[k].ending == Looping {
      assert Faithful(s.consumers[k], EventsOf(s.log, k));
      if s.consumers[k].consumed < |s.consumers[k].sent| {
        TookFaithful(s, k);
      } else if s.consumers[k].closed {
        SawCloseFaithful(s, k);
      }
    }
  }

  /** In every interleaving, every consumer's events are those of a prefix of its own deltas. */
  lemma {:induction false} EveryStateFaithful(actions: seq<Action>)
    ensures AllFaithful(Run(actions))
  {
    if actions == [] {
    } else {
      var n := |actions| - 1;
      EveryStateFaithful(actions[..n]);
      ApplyFaithful(Run(actions[..n]), actions[n]);
    }
  }

  /** What listeners can rely on: a report per delta taken, one final event at most, as the last one, all content. */
  ghost predicate WellFormedEvents(c: Consumer, events: seq<StreamEvent>) {
    && c.consumed <= |c.sent|
    && (forall i :: 0 <= i < |events| - 1 ==> !FinalEvent(events[i]))
    && (forall i :: 0 <= i < |events| ==> events[i].session == c.session)
    && EventContents(events) == Contents(c.sent[..c.consumed])
    && (c.ending != Looping && !c.cancelled ==> events != [] && FinalEvent(events[|events| - 1]))
    && AllReported(c.session, c.sent[..c.consumed], c.ending, events)
  }

  lemma FaithfulMeans(c: Consumer, events: seq<StreamEvent>)
    requires Faithful(c, events)
    ensures WellFormedEvents(c, events)
  {
    var consumed := c.sent[..c.consumed];
    FinalEventIsLast(c.session, consumed, c.ending);
    ContentPreserved(c.session, consumed, c.ending);
    EveryDeltaReported(c.session, consumed, c.ending);
  }

  /** In every interleaving: one well-formed event sequence per consumer, its content intact. */
  lemma EventSequenceWellFormed(actions: seq<Action>, k: nat)
    requires k < |Run(actions).consumers|
    ensures WellFormedEvents(Run(actions).consumers[k], EventsOf(Run(actions).log, k))
  {
    EveryStateFaithful(actions);
    FaithfulMeans(Run(actions).consumers[k], EventsOf(Run(actions).log, k));
  }

  /** A consumer that ended emits nothing more, whatever happens next. */
  lemma {:induction false} EndedIsSilent(actions: seq<Action>, more: seq<Action>, k: nat)
    requires k < |Run(actions).consumers| && Run(actions).consumers[k].ending != Looping
    ensures k < |Run(actions + more).consumers|
    ensures Run(actions + more).consumers[k].ending == Run(actions).consumers[k].ending
    ensures EventsOf(Run(actions + more).log, k) == EventsOf(Run(actions).log, k)
    decreases |more|
  {
    if more == [] {
      assert actions + more == actions;
    } else {
      var n := |more| - 1;
      LastOfMore(actions, more);
      EndedIsSilent(actions, more[..n], k);
      OneMoreIsSilent(Run(actions + more[..n]), more[n], k);
    }
  }

  lemma LastOfMore(actions: seq<Action>, more: seq<Action>)
    requires more != []
    ensures Run(actions + more) == Apply(Run(actions + more[..|more| - 1]), more[|more| - 1])
  {
    LastOfConcat(actions, more);
    Extend(actions + more[..|more| - 1], more[|more| - 1]);
  }

  lemma OneMoreIsSilent(s: System, a: Action, k: nat)
    requires k < |s.consumers| && s.consumers[k].ending != Looping
    ensures k < |Apply(s, a).consumers|
    ensures Apply(s, a).consumers[k].ending == s.consumers[k].ending
    ensures EventsOf(Apply(s, a).log, k) == EventsOf(s.log, k)
  {
    if a.Receive? && a.consumer < |s.consumers| && s.consumers[a.consumer].ending == Looping {
      var c := s.consumers[a.consumer];
      if c.consumed < |c.sent| {
        EventsAppend(s.log, a.consumer, EventOf(c.session, c.sent[c.consumed]), k);
      } else if c.closed {
        EventsAppend(s.log, a.consumer, Closing(c.session), k);
      }
    }
  }

  // ---- Which consumer CancelStream reaches ---------------------------------------------------

  ghost predicate Registered(s: System, session: string, k: nat) {
    session in s.streams && s.streams[session] == k
  }

  /** The actions that take a session's registration away: a successor, CancelAll, and any late clean-up. */
  predicate Unregisters(s: System, a: Action, session: string) {
    match a
    case ConsumeStream(other) => other == session
    case CancelAll => true
    case CleanUp(j) =>
      j < |s.consumers| && s.consumers[j].session == session && s.consumers[j].ending != Looping
        && !s.consumers[j].cleaned
    case _ => false
  }

  lemma OneMoreRegistered(s: System, a: Action, session: string, k: nat)
    requires k < |s.consumers|
    ensures k < |Apply(s, a).consumers|
    ensures Registered(Apply(s, a), session, k) <==> Registered(s, session, k) && !Unregisters(s, a, session)
  {
  }

  /** Action `i` of `more` takes the registration away in the state it meets. */
  ghost predicate TakesAway(start: seq<Action>, more: seq<Action>, i: nat, session: string)
    requires i < |more|
  {
    Unregisters(Run(start + more[..i]), more[i], session)
  }

  ghost predicate Undisturbed(start: seq<Action>, more: seq<Action>, session: string) {
    forall i :: 0 <= i < |more| ==> !TakesAway(start, more, i, session)
  }

  lemma TakesAwayEarlier(start: seq<Action>, more: seq<Action>, i: nat, session: string)
    requires i < |more| - 1
    ensures TakesAway(start, more[..|more| - 1], i, session) == TakesAway(start, more, i, session)
  {
    assert more[..|more| - 1][..i] == more[..i];
  }

  lemma UndisturbedSplits(start: seq<Action>, more: seq<Action>, session: string)
    requires more != []
    ensures Undisturbed(start, more, session) <==>
      Undisturbed(start, more[..|more| - 1], session) && !TakesAway(start, more, |more| - 1, session)
  {
    var init := more[..|more| - 1];
    if Undisturbed(start, init, session) && !TakesAway(start, more, |more| - 1, session) {
      forall i | 0 <= i < |more| ensures TakesAway(start, more, i, session) == false {
        if i < |init| {
          TakesAwayEarlier(start, more, i, session);
        }
      }
    }
    if Undisturbed(start, more, session) {
      forall i | 0 <= i < |init| ensures TakesAway(start, init, i, session) == false {
        TakesAwayEarlier(start, more, i, session);
      }
    }
  }

  /** A consumer stays registered for its session exactly as long as nothing takes that away. */
  lemma {:induction false} RegisteredIff(before: seq<Action>, session: string, more: seq<Action>)
    ensures var start, k := before + [ConsumeStream(session)], |Run(before).consumers|;
            && k < |Run(start + more).consumers|
            && (Registered(Run(start + more), session, k) <==> Undisturbed(start, more, session))
    decreases |more|
  {
    var start, k := before + [ConsumeStream(session)], |Run(before).consumers|;
    if more == [] {
      assert start + more == start;
      Extend(before, ConsumeStream(session));
    } else {
      var n := |more| - 1;
      RegisteredIff(before, session, more[..n]);
      LastOfMore(start, more);
      OneMoreRegistered(Run(start + more[..n]), more[n], session, k);
      UndisturbedSplits(start, more, session);
    }
  }

  lemma CancelOnRegistered(s: System, session: string, k: nat)
    requires k < |s.consumers|
    ensures k < |Apply(s, CancelStream(session)).consumers|
    ensures Apply(s, CancelStream(session)).consumers[k].cancelled
       <==> s.consumers[k].cancelled || Registered(s, session, k)
  {
  }

  /** CancelStream leaves a consumer cancelled exactly if it was already, or nothing took its registration away. */
  lemma CancelReachesIff(before: seq<Action>, session: string, more: seq<Action>)
    ensures var start, k := before + [ConsumeStream(session)], |Run(before).consumers|;
            var s, after := Run(start + more), Run(start + more + [CancelStream(session)]);
            && k < |s.consumers| && k < |after.consumers|
            && (after.consumers[k].cancelled <==> s.consumers[k].cancelled || Undisturbed(start, more, session))
  {
    var all := before + [ConsumeStream(session)] + more;
    RegisteredIff(before, session, more);
    Extend(all, CancelStream(session));
    CancelOnRegistered(Run(all), session, |Run(before).consumers|);
  }

  /**
   The shortest way to lose a running consumer: the clean-up of a replaced stream drops its successor's
   registration, after which CancelStream no longer reaches it.
   */
  lemma ReplacedStreamEscapesCancel(session: string)
    ensures var actions := [ConsumeStream(session), ConsumeStream(session), SeeCancel(0), CleanUp(0),
      CancelStream(session)];
            && |Run(actions).consumers| == 2
            && Run(actions).consumers[1].ending == Looping
            && !Run(actions).consumers[1].cancelled
  {
    var idle := Started(session);
    var replaced := idle.(cancelled := true);
    var start := ConsumeStream(session);
    Extend([], start);
    Extend([start], start);
    assert [] + [start] == [start] && [start] + [start] == [start, start];
    assert Run([start, start]) == System([replaced, idle], map[session := 1], []);
    EndsUnregistered(session);
  }

  lemma Extend(actions: seq<Action>, a: Action)
    ensures Run(actions + [a]) == Apply(Run(actions), a)
  {
  }

  lemma EndsUnregistered(session: string)
    requires var idle := Started(session);
             Run([ConsumeStream(session), ConsumeStream(session)])
               == System([idle.(cancelled := true), idle], map[session := 1], [])
    ensures var actions := [ConsumeStream(session), ConsumeStream(session), SeeCancel(0), CleanUp(0),
      CancelStream(session)];
            var idle := Started(session);
            Run(actions) == System([idle.(cancelled := true, ending := OnCancel, cleaned := true), idle], map[], [])
  {
    var idle := Started(session);
    var a2 := [ConsumeStream(session), ConsumeStream(session)];
    var a3 := a2 + [SeeCancel(0)];
    var a4 := a3 + [CleanUp(0)];
    Extend(a2, SeeCancel(0));
    Extend(a3, CleanUp(0));
    Extend(a4, CancelStream(session));
    assert Run(a3) == System([idle.(cancelled := true, ending := OnCancel), idle], map[session := 1], []);
    assert Run(a4) == System([idle.(cancelled := true, ending := OnCancel, cleaned := true), idle], map[], []);
    assert a4 + [CancelStream(session)]
        == [ConsumeStream(session), ConsumeStream(session), SeeCancel(0), CleanUp(0), CancelStream(session)];
  }
}
