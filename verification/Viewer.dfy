/**
 * The two queues between the viewer's network side and its user interface: events are taken in
 * arrival order, messages in stack order, and both are filled and emptied under one lock.
 */
module Viewer {
  import opened Words

  datatype Event = Invalid | Connect | Disconnect | Message | SessionMessage

  // A message is known by the number of its notification.
  type Id = nat

  datatype State = State(
    console: bool,
    session: bool,
    events: seq<Event>,
    messages: seq<Id>,
    inHand: Option<Id>,
    processing: bool,
    finalized: bool,
    notified: nat,
    dropped: nat,
    arrived: seq<Event>,
    handled: seq<Event>,
    consumed: seq<Id>,
    released: seq<Id>,
    processed: nat,
    flushed: nat)

  datatype Step =
    | Start
    | Notify(duplicated: bool)
    | NotifySession
    | End
    | Process
    | Finish(printed: bool)
    | Finalize

  function Initial(console: bool): State {
    State(console, false, [], [], None, true, false, 0, 0, [], [], [], [], 0, 0)
  }

  // ----- The steps ----------------------------------------------------------------------------

  function Arrive(s: State, e: Event): State {
    s.(events := s.events + [e], arrived := s.arrived + [e])
  }

  /** A sensor message. On the console it is only printed; otherwise a duplicate of it is queued in
      front of the older ones, or it is counted as dropped when there is none. */
  function NotifyMessage(s: State, duplicated: bool): State {
    if !s.session || s.console then s
    else if !duplicated then s.(notified := s.notified + 1, dropped := s.dropped + 1)
    else Arrive(s, Message).(messages := [s.notified] + s.messages, notified := s.notified + 1)
  }

  /** The locked part of process_cb: the oldest event, and for a message event the newest message. */
  function TakeEvent(s: State): State {
    if s.events == [] then s
    else
      var taken := s.(events := s.events[1..], handled := s.handled + [s.events[0]]);
      match s.events[0]
      case Message =>
        if s.messages == [] then taken
        else
          taken.(messages := s.messages[1..], inHand := Some(s.messages[0]),
                 consumed := s.consumed + [s.messages[0]], processed := s.processed + 1)
      case Invalid => taken.(processing := false)
      case _ => taken
  }

  function Apply(s: State, step: Step): State {
    if s.finalized then s
    else
      match step
      case Start => Arrive(s.(session := true), Connect)
      case Notify(duplicated) => NotifyMessage(s, duplicated)
      case NotifySession => Arrive(s, SessionMessage)
      case End => Arrive(s, Disconnect)
      case Process => if s.processing && s.inHand.None? then TakeEvent(s) else s
      case Finish(printed) =>
        if s.inHand.None? then s
        else s.(inHand := None, released := s.released + [s.inHand.value], processing := s.processing && printed)
      case Finalize =>
        if s.inHand.Some? then s // the user interface has one thread
        else
          s.(messages := [], consumed := s.consumed + s.messages, released := s.released + s.messages,
             flushed := |s.messages|, finalized := true)
  }

  function Run(s: State, steps: seq<Step>): State
    decreases |steps|
  {
    if steps == [] then s else Run(Apply(s, steps[0]), steps[1..])
  }

  // ----- Invariants ---------------------------------------------------------------------------

  function CountMessages(events: seq<Event>): nat {
    if events == [] then 0 else (if events[0] == Message then 1 else 0) + CountMessages(events[1..])
  }

  lemma {:induction false} CountAppend(events: seq<Event>, e: Event)
    ensures CountMessages(events + [e]) == CountMessages(events) + if e == Message then 1 else 0
  {
    if events != [] {
      assert (events + [e])[1..] == events[1..] + [e];
      CountAppend(events[1..], e);
    }
  }

  /** Newest first. */
  predicate Falling(ids: seq<Id>) {
    forall i, j :: 0 <= i < j < |ids| ==> ids[i] > ids[j]
  }

  predicate Distinct(ids: seq<Id>) {
    forall i, j :: 0 <= i < j < |ids| ==> ids[i] != ids[j]
  }

  predicate Inv(s: State) {
    // the two queues stay coupled, and nothing but the four kinds of event is ever queued
    && (!s.finalized ==> CountMessages(s.events) == |s.messages|)
    && Invalid !in s.arrived
    && s.arrived == s.handled + s.events
    // nothing is lost, doubled or made up
    && s.notified == s.dropped + s.processed + |s.messages| + s.flushed
    && |s.consumed| == s.processed + s.flushed && (!s.finalized ==> s.flushed == 0)
    && Falling(s.messages) && Distinct(s.consumed)
    && (forall id :: id in s.messages ==> id < s.notified && id !in s.consumed)
    && (forall id :: id in s.consumed ==> id < s.notified)
    && s.consumed == s.released + if s.inHand.Some? then [s.inHand.value] else []
  }

  lemma StepKeepsInv(s: State, step: Step)
    requires Inv(s)
    ensures Inv(Apply(s, step))
  {
    if !s.finalized {
      hide CountMessages, Falling, Distinct;
      match step
      case Start => ArriveKeepsInv(s.(session := true), Connect);
      case Notify(duplicated) =>
        if s.session && !s.console && duplicated {
          MessageKeepsInv(s);
        }
      case NotifySession => ArriveKeepsInv(s, SessionMessage);
      case End => ArriveKeepsInv(s, Disconnect);
      case Process =>
        if s.processing && s.inHand.None? && s.events != [] {
          TakeKeepsInv(s);
        }
      case Finish(_) =>
      case Finalize =>
        if s.inHand.None? {
          FlushKeepsInv(s);
        }
    }
  }

  lemma ArriveKeepsInv(s: State, e: Event)
    requires Inv(s) && !s.finalized && e in {Connect, Disconnect, SessionMessage}
    ensures Inv(Arrive(s, e))
  {
    hide CountMessages, Falling, Distinct;
    CountAppend(s.events, e);
  }

  lemma MessageKeepsInv(s: State)
    requires Inv(s) && !s.finalized && s.session && !s.console
    ensures Inv(NotifyMessage(s, true))
  {
    hide CountMessages, Falling, Distinct;
    CountAppend(s.events, Message);
    PushKeepsFalling(s.messages, s.notified);
  }

  lemma PushKeepsFalling(ids: seq<Id>, id: Id)
    requires Falling(ids) && forall i :: i in ids ==> i < id
    ensures Falling([id] + ids)
  {
    forall j | 0 < j < |[id] + ids|
      ensures ([id] + ids)[j] < id
    {
      assert ([id] + ids)[j] in ids;
    }
  }

  lemma TakeKeepsInv(s: State)
    requires Inv(s) && !s.finalized && s.inHand.None? && s.events != []
    ensures Inv(TakeEvent(s))
  {
    var e := s.events[0];
    assert e in s.events && s.events == [e] + s.events[1..];
    assert CountMessages(s.events) == (if e == Message then 1 else 0) + CountMessages(s.events[1..]);
    hide CountMessages, Falling, Distinct;
    assert s.handled + s.events == (s.handled + [e]) + s.events[1..];
    if e == Message {
      TakeMessageKeeps(s.messages, s.consumed);
      assert s.messages[0] in s.messages;
    }
  }

  lemma TakeMessageKeeps(messages: seq<Id>, consumed: seq<Id>)
    requires messages != [] && Falling(messages) && Distinct(consumed)
    requires forall id :: id in messages ==> id !in consumed
    ensures Falling(messages[1..]) && Distinct(consumed + [messages[0]])
    ensures forall id :: id in messages[1..] ==> id in messages && id !in consumed + [messages[0]]
  {
    assert messages[0] in messages;
  }

  lemma FlushKeepsInv(s: State)
    requires Inv(s) && !s.finalized && s.inHand.None?
    ensures Inv(Apply(s, Finalize))
  {
    var all := s.consumed + s.messages;
    forall i, j | 0 <= i < j < |all|
      ensures all[i] != all[j]
    {
      if i < |s.consumed| <= j {
        assert all[i] in s.consumed && all[j] in s.messages;
      }
    }
  }

  lemma {:induction false} RunKeepsInv(s: State, steps: seq<Step>)
    requires Inv(s)
    ensures Inv(Run(s, steps))
    decreases |steps|
  {
    if steps != [] {
      StepKeepsInv(s, steps[0]);
      RunKeepsInv(Apply(s, steps[0]), steps[1..]);
    }
  }

  lemma ReachableInv(console: bool, steps: seq<Step>)
    ensures Inv(Run(Initial(console), steps))
  {
    hide Apply, Run;
    InitialInv(console);
    RunKeepsInv(Initial(console), steps);
  }

  lemma InitialInv(console: bool)
    ensures Inv(Initial(console))
  {
  }

  // ----- Main results -------------------------------------------------------------------------

  /** Until the viewer is finalized there are exactly as many message events as messages, so taking a
      message event never finds the message queue empty; events are handled in arrival order. */
  lemma QueuesStayCoupled(console: bool, steps: seq<Step>)
    ensures var s := Run(Initial(console), steps);
            && (!s.finalized ==> CountMessages(s.events) == |s.messages|)
            && (!s.finalized && s.events != [] && s.events[0] == Message ==> s.messages != [])
            && Invalid !in s.arrived
            && s.handled + s.events == s.arrived
  {
    hide Apply, Run;
    ReachableInv(console, steps);
    var s := Run(Initial(console), steps);
    if !s.finalized && s.events != [] && s.events[0] == Message {
      MessageEventHasMessage(s);
    }
  }

  lemma MessageEventHasMessage(s: State)
    requires CountMessages(s.events) == |s.messages| && s.events != [] && s.events[0] == Message
    ensures s.messages != []
  {
  }

  /** Every notified message has been dropped, processed or flushed or is pending; each duplicate is
      released at most once, and all but the one in hand have been once they are consumed. */
  lemma MessagesAreConserved(console: bool, steps: seq<Step>)
    ensures var s := Run(Initial(console), steps);
            && s.notified == s.dropped + s.processed + |s.messages| + s.flushed
            && Distinct(s.released)
            && (forall id :: id in s.released ==> id in s.consumed && id !in s.messages)
            && |s.consumed| == s.processed + s.flushed == |s.released| + (if s.inHand.Some? then 1 else 0)
            && (s.finalized ==> s.messages == [] && s.released == s.consumed)
  {
    var s := Run(Initial(console), steps);
    hide Apply, Run;
    ReachableInv(console, steps);
    FlushIsLast(Initial(console), steps);
    assert forall i :: 0 <= i < |s.released| ==> s.released[i] == s.consumed[i];
  }

  lemma {:induction false} FlushIsLast(s: State, steps: seq<Step>)
    requires s.finalized ==> s.messages == [] && s.inHand.None?
    ensures Run(s, steps).finalized ==> Run(s, steps).messages == [] && Run(s, steps).inHand.None?
    decreases |steps|
  {
    if steps != [] {
      FlushIsLast(Apply(s, steps[0]), steps[1..]);
    }
  }

  // ----- The order in which messages are consumed ---------------------------------------------

  predicate Before(ids: seq<Id>, first: Id, second: Id) {
    exists i, j :: 0 <= i < j < |ids| && ids[i] == first && ids[j] == second
  }

  /** The later message of two stays ahead of the earlier one. */
  predicate LaterAhead(s: State, earlier: Id, later: Id) {
    || (earlier in s.messages && (later in s.messages || later in s.consumed))
    || Before(s.consumed, later, earlier)
  }

  lemma StepKeepsLaterAhead(s: State, step: Step, earlier: Id, later: Id)
    requires Inv(s) && earlier < later && LaterAhead(s, earlier, later)
    ensures LaterAhead(Apply(s, step), earlier, later)
  {
    hide CountMessages, Falling, Distinct;
    var s' := Apply(s, step);
    if Before(s.consumed, later, earlier) {
      var i, j :| 0 <= i < j < |s.consumed| && s.consumed[i] == later && s.consumed[j] == earlier;
      assert s'.consumed[i] == later && s'.consumed[j] == earlier;
    } else if !s.finalized && step == Process && s'.consumed != s.consumed {
      TakeKeepsLaterAhead(s, earlier, later);
    } else if !s.finalized && step == Finalize && s.inHand.None? {
      FlushKeepsLaterAhead(s, earlier, later);
    }
  }

  lemma TakeKeepsLaterAhead(s: State, earlier: Id, later: Id)
    requires Inv(s) && earlier < later && s.messages != []
    requires earlier in s.messages && (later in s.messages || later in s.consumed)
    ensures earlier in s.messages[1..] || Before(s.consumed + [s.messages[0]], later, earlier)
    ensures later in s.messages[1..] || later in s.consumed + [s.messages[0]]
  {
    if s.messages[0] == earlier {
      assert later !in s.messages;
      var i :| 0 <= i < |s.consumed| && s.consumed[i] == later;
      var all := s.consumed + [earlier];
      assert all[i] == later && all[|s.consumed|] == earlier;
    }
  }

  lemma FlushKeepsLaterAhead(s: State, earlier: Id, later: Id)
    requires Inv(s) && earlier < later
    requires earlier in s.messages && (later in s.messages || later in s.consumed)
    ensures Before(s.consumed + s.messages, later, earlier)
  {
    var all := s.consumed + s.messages;
    var j :| 0 <= j < |s.messages| && s.messages[j] == earlier;
    assert all[|s.consumed| + j] == earlier;
    if later in s.messages {
      var i :| 0 <= i < |s.messages| && s.messages[i] == later;
      assert i < j && all[|s.consumed| + i] == later;
    } else {
      var i :| 0 <= i < |s.consumed| && s.consumed[i] == later;
      assert all[i] == later;
    }
  }

  lemma {:induction false} RunKeepsLaterAhead(s: State, steps: seq<Step>, earlier: Id, later: Id)
    requires Inv(s) && earlier < later && LaterAhead(s, earlier, later)
    ensures Inv(Run(s, steps)) && LaterAhead(Run(s, steps), earlier, later)
    decreases |steps|
  {
    if steps != [] {
      StepKeepsInv(s, steps[0]);
      StepKeepsLaterAhead(s, steps[0], earlier, later);
      hide Apply, LaterAhead, Inv;
      RunKeepsLaterAhead(Apply(s, steps[0]), steps[1..], earlier, later);
    }
  }

  /** Stack order over all runs: of two messages that are ever pending together, the later one is
      processed or flushed first. */
  lemma PendingTogetherLaterFirst(console: bool, steps: seq<Step>, more: seq<Step>, earlier: Id, later: Id)
    requires var s := Run(Initial(console), steps); earlier in s.messages && later in s.messages
    requires earlier < later
    ensures var t := Run(Run(Initial(console), steps), more);
            earlier in t.consumed ==> Before(t.consumed, later, earlier)
  {
    hide Apply, Run;
    ReachableInv(console, steps);
    RunKeepsLaterAhead(Run(Initial(console), steps), more, earlier, later);
  }

  predicate Rising(ids: seq<Id>) {
    forall i, j :: 0 <= i < j < |ids| ==> ids[i] < ids[j]
  }

  predicate NeverTwoPending(s: State, steps: seq<Step>)
    decreases |steps|
  {
    |s.messages| <= 1 && (steps != [] ==> NeverTwoPending(Apply(s, steps[0]), steps[1..]))
  }

  lemma {:induction false} OnePendingKeepsOrder(s: State, steps: seq<Step>)
    requires Inv(s) && NeverTwoPending(s, steps)
    requires Rising(s.consumed + s.messages)
    ensures Rising(Run(s, steps).consumed + Run(s, steps).messages)
    decreases |steps|
  {
    if steps != [] {
      StepKeepsInv(s, steps[0]);
      OnePendingStep(s, steps[0]);
      OnePendingKeepsOrder(Apply(s, steps[0]), steps[1..]);
    }
  }

  lemma NewestKeepsRising(ids: seq<Id>, id: Id)
    requires Rising(ids) && forall i :: i in ids ==> i < id
    ensures Rising(ids + [id])
  {
    forall j | 0 <= j < |ids|
      ensures (ids + [id])[j] < id
    {
      assert ids[j] in ids;
    }
  }

  lemma OnePendingStep(s: State, step: Step)
    requires Inv(s) && |s.messages| <= 1 && |Apply(s, step).messages| <= 1
    requires Rising(s.consumed + s.messages)
    ensures Rising(Apply(s, step).consumed + Apply(s, step).messages)
  {
    hide CountMessages, Falling, Distinct, Rising;
    var s' := Apply(s, step);
    var all := s'.consumed + s'.messages;
    if !s.finalized && step.Notify? && s'.messages != s.messages {
      assert s.messages == [] && s'.messages == [s.notified];
      assert s.consumed + s.messages == s.consumed;
      NewestKeepsRising(s.consumed, s.notified);
    } else if s.messages != [] {
      assert s.messages == [s.messages[0]];
      assert all == s.consumed + s.messages;
    } else {
      assert all == s.consumed + s.messages;
    }
  }

  lemma {:induction false} TwoPendingBreaksOrder(s: State, steps: seq<Step>)
    requires Inv(s) && !NeverTwoPending(s, steps) && Run(s, steps).messages == []
    ensures !Rising(Run(s, steps).consumed)
    decreases |steps|
  {
    if |s.messages| >= 2 {
      var later, earlier := s.messages[0], s.messages[1];
      RunKeepsLaterAhead(s, steps, earlier, later);
    } else {
      StepKeepsInv(s, steps[0]);
      TwoPendingBreaksOrder(Apply(s, steps[0]), steps[1..]);
    }
  }

  /** When all messages of a run have been consumed, they were consumed in arrival order if and only
      if no two of them were ever pending at the same time. */
  lemma ArrivalOrderExactlyWhenOnePending(console: bool, steps: seq<Step>)
    requires Run(Initial(console), steps).messages == []
    ensures Rising(Run(Initial(console), steps).consumed) <==> NeverTwoPending(Initial(console), steps)
  {
    hide Apply, Run, NeverTwoPending, Inv;
    InitialInv(console);
    var s := Run(Initial(console), steps);
    if NeverTwoPending(Initial(console), steps) {
      OnePendingKeepsOrder(Initial(console), steps);
      assert s.consumed + s.messages == s.consumed;
    } else {
      TwoPendingBreaksOrder(Initial(console), steps);
    }
  }

  // ----- Nothing is withheld ------------------------------------------------------------------

  /** What the network side has done. */
  datatype Inflow = Inflow(session: bool, notified: nat, dropped: nat, arrived: seq<Event>)

  function InflowOf(s: State): Inflow {
    Inflow(s.session, s.notified, s.dropped, s.arrived)
  }

  /** The inflow of some steps: sessions and session messages announce themselves; with a session open
      and a user interface every sensor message counts, and is announced unless it is dropped. */
  function Flow(console: bool, x: Inflow, steps: seq<Step>): Inflow
    decreases |steps|
  {
    if steps == [] then x else Flow(console, FlowStep(console, x, steps[0]), steps[1..])
  }

  function FlowStep(console: bool, x: Inflow, step: Step): Inflow {
    match step
    case Start => x.(session := true, arrived := x.arrived + [Connect])
    case NotifySession => x.(arrived := x.arrived + [SessionMessage])
    case End => x.(arrived := x.arrived + [Disconnect])
    case Notify(duplicated) =>
      if console || !x.session then x
      else if duplicated then x.(notified := x.notified + 1, arrived := x.arrived + [Message])
      else x.(notified := x.notified + 1, dropped := x.dropped + 1)
    case _ => x
  }

  lemma {:induction false} FinalizedStays(s: State, steps: seq<Step>)
    requires s.finalized
    ensures Run(s, steps) == s
    decreases |steps|
  {
    if steps != [] {
      FinalizedStays(s, steps[1..]);
    }
  }

  lemma StepFlows(s: State, step: Step)
    requires !Apply(s, step).finalized
    ensures InflowOf(Apply(s, step)) == FlowStep(s.console, InflowOf(s), step)
    ensures Apply(s, step).console == s.console
  {
  }

  /** Until the viewer is finalized every call of the network side is announced and counted, and no
      message is dropped that has been duplicated. */
  lemma {:induction false} EveryCallIsAnnounced(s: State, steps: seq<Step>)
    requires !Run(s, steps).finalized
    ensures InflowOf(Run(s, steps)) == Flow(s.console, InflowOf(s), steps)
    decreases |steps|
  {
    if steps != [] {
      if Apply(s, steps[0]).finalized {
        FinalizedStays(Apply(s, steps[0]), steps[1..]);
      }
      StepFlows(s, steps[0]);
      hide Apply, FlowStep;
      EveryCallIsAnnounced(Apply(s, steps[0]), steps[1..]);
    }
  }

  /** A duplicated message is queued in front of the others, together with its event behind the others. */
  lemma DuplicateIsQueued(s: State)
    requires !s.finalized && s.session && !s.console
    ensures var t := Apply(s, Notify(true));
            && t.messages == [s.notified] + s.messages && t.events == s.events + [Message]
            && t.consumed == s.consumed && t.dropped == s.dropped && t.notified == s.notified + 1
  {
  }

  /** Rounds of the user interface: an event is processed, and its message, if any, shown and released. */
  function Rounds(n: nat): seq<Step> {
    if n == 0 then [] else [Process, Finish(true)] + Rounds(n - 1)
  }

  predicate Ready(s: State) {
    Inv(s) && !s.finalized && s.processing && s.inHand.None?
  }

  lemma OneRound(s: State)
    requires Ready(s) && s.events != []
    ensures var t := Apply(Apply(s, Process), Finish(true));
            && Ready(t) && t.events == s.events[1..] && t.handled == s.handled + [s.events[0]]
            && t.consumed + t.messages == s.consumed + s.messages
            && |t.messages| == |s.messages| - (if s.events[0] == Message then 1 else 0)
            && t.arrived == s.arrived
  {
    StepKeepsInv(s, Process);
    StepKeepsInv(Apply(s, Process), Finish(true));
    assert s.events[0] in s.arrived;
    if s.events[0] == Message {
      MessageEventHasMessage(s);
    }
    hide Inv;
  }

  lemma {:induction false} RoundsProcess(s: State)
    requires Ready(s)
    ensures var t := Run(s, Rounds(|s.events|));
            && Ready(t) && t.events == [] && t.messages == []
            && t.handled == s.handled + s.events && t.consumed == s.consumed + s.messages
    decreases |s.events|
  {
    if s.events == [] {
      assert s.messages == [];
    } else {
      var t := Apply(Apply(s, Process), Finish(true));
      OneRound(s);
      var rest := Rounds(|s.events| - 1);
      assert ([Process, Finish(true)] + rest)[1..] == [Finish(true)] + rest;
      assert ([Finish(true)] + rest)[1..] == rest;
      assert Run(s, Rounds(|s.events|)) == Run(t, rest) by {
        hide Apply;
        assert Run(Apply(s, Process), [Finish(true)] + rest) == Run(t, rest);
      }
      hide Apply, Inv, Rounds;
      RoundsProcess(t);
    }
  }

  /** In every reachable state in which the user interface is still processing, as many rounds as there are
      events handle all events that have arrived, and consume and release all pending messages,
      newest first. */
  lemma PendingIsProcessed(console: bool, steps: seq<Step>)
    requires var s := Run(Initial(console), steps); !s.finalized && s.processing && s.inHand.None?
    ensures var s := Run(Initial(console), steps);
            var t := Run(s, Rounds(|s.events|));
            && t.events == [] && t.messages == [] && t.handled == s.arrived
            && t.consumed == t.released == s.consumed + s.messages
  {
    hide Apply, Run;
    ReachableInv(console, steps);
    RoundsProcess(Run(Initial(console), steps));
  }

  /** What stops the processing for good is a message that cannot be printed, and nothing else does. */
  lemma ProcessingStopsExactly(s: State, step: Step)
    requires Inv(s)
    ensures var t := Apply(s, step);
            && (s.processing && !t.processing <==> s.processing && !s.finalized && step == Finish(false) && s.inHand.Some?)
            && (!s.processing ==> !t.processing && Apply(s, Process) == s)
  {
    if s.events != [] {
      assert s.events[0] in s.arrived;
    }
  }

  /** Finalizing flushes what is pending, newest first, and is the end. */
  lemma FinalizingFlushes(s: State, steps: seq<Step>)
    requires !s.finalized && s.inHand.None?
    ensures var t := Apply(s, Finalize);
            && t.finalized && t.messages == [] && t.flushed == |s.messages|
            && t.consumed == s.consumed + s.messages && t.released == s.released + s.messages
            && Run(t, steps) == t
  {
    FinalizedStays(Apply(s, Finalize), steps);
  }
}
