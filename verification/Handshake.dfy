/**
 * Shutting a sender thread down: when the record the thread works on may be freed, and how much the
 * thread still does once it has been signalled.
 */
module Handshake {
  import opened Ring
  import opened Pipeline

  /** What every thread and every shutdown of it keep, in every interleaving. */
  predicate ThreadInv(t: Sender) {
    && (t.running <==> !(t.pc == Unstarted || t.pc == Gone))
    && (t.shutdown == Polling ==> t.signalled)
    && (t.shutdown == NotCalled ==> !t.signalled)
  }

  predicate ThreadsInv(s: State) {
    ThreadInv(s.netlink) && ThreadInv(s.udp)
  }

  lemma MoveKeepsThread(t: Sender, id: Id, lock: Lock, ring: Slots, pos: Position, answer: Answer, delivered: bool)
    requires ThreadInv(t)
    ensures ThreadInv(SenderMove(t, id, lock, ring, pos, answer, delivered).sender)
  {
  }

  lemma StepKeepsThreads(s: State, step: Step)
    requires ThreadsInv(s)
    ensures ThreadsInv(Apply(s, step))
  {
    hide ProducerStep, ClearStep, SenderMove;
    if step.Send? {
      MoveKeepsThread(Get(s, step.id), step.id, s.lock, s.ring, s.pos, step.answer, step.delivered);
    }
  }

  lemma {:induction false} RunKeepsThreads(s: State, steps: seq<Step>)
    requires ThreadsInv(s)
    ensures ThreadsInv(Run(s, steps))
    decreases |steps|
  {
    if steps != [] {
      StepKeepsThreads(s, steps[0]);
      hide Apply;
      RunKeepsThreads(Apply(s, steps[0]), steps[1..]);
    }
  }

  // ----- The record is freed after the thread's last access -----------------------------------

  /** The thread has returned. */
  predicate Left(pc: SenderPc) {
    pc == Gone || pc == Aborted
  }

  /** Until it has returned, a thread still has accesses to its server record ahead of it: taking back
      running is its last. */
  predicate FreedTooEarly(t: Sender) {
    t.shutdown == Freed && !Left(t.pc)
  }

  /** A shutdown that was begun properly: the thread had announced itself, and the signal arrived. */
  predicate Orderly(t: Sender) {
    && ThreadInv(t)
    && (t.shutdown != NotCalled ==> t.signalled && t.pc != Unstarted)
    && (t.shutdown == Freed ==> t.pc == Gone)
  }

  /** In a run, every shutdown begins after the thread has set running, and its signal arrives. */
  predicate Proper(s: State, steps: seq<Step>)
    decreases |steps|
  {
    steps != [] ==>
      && (steps[0].BeginShutdown? && Get(s, steps[0].id).shutdown == NotCalled ==>
            steps[0].signalDelivered && Get(s, steps[0].id).running)
      && Proper(Apply(s, steps[0]), steps[1..])
  }

  lemma StepKeepsOrder(s: State, step: Step, id: Id)
    requires Orderly(Get(s, id))
    requires step.BeginShutdown? && Get(s, step.id).shutdown == NotCalled ==>
               step.signalDelivered && Get(s, step.id).running
    ensures Orderly(Get(Apply(s, step), id))
  {
    hide ProducerStep, ClearStep, SenderMove;
    if step.Send? {
      MoveKeepsOrder(Get(s, step.id), step.id, s.lock, s.ring, s.pos, step.answer, step.delivered);
    }
  }

  lemma MoveKeepsOrder(t: Sender, id: Id, lock: Lock, ring: Slots, pos: Position, answer: Answer, delivered: bool)
    ensures Orderly(t) ==> Orderly(SenderMove(t, id, lock, ring, pos, answer, delivered).sender)
    ensures SenderMove(t, id, lock, ring, pos, answer, delivered).sender.shutdown == t.shutdown
  {
  }

  lemma {:induction false} ProperRunKeepsOrder(s: State, steps: seq<Step>, id: Id)
    requires Orderly(Get(s, id)) && Proper(s, steps)
    ensures Orderly(Get(Run(s, steps), id))
    decreases |steps|
  {
    if steps != [] {
      StepKeepsOrder(s, steps[0], id);
      hide Apply;
      ProperRunKeepsOrder(Apply(s, steps[0]), steps[1..], id);
    }
  }

  /** In every interleaving in which shutdowns begin after the thread has set running and signals
      arrive, a server record is freed only after the thread's last access to it. */
  lemma RecordIsFreedAfterLastAccess(nofifo: bool, steps: seq<Step>, id: Id)
    requires Proper(Initial(nofifo), steps)
    ensures !FreedTooEarly(Get(Run(Initial(nofifo), steps), id))
  {
    ProperRunKeepsOrder(Initial(nofifo), steps, id);
  }

  /** No other way of beginning a shutdown is safe: from any reachable state with the thread not yet
      gone, some schedule frees the record too early if and only if the signal does not arrive or
      the thread has not set running. */
  lemma EarlyFreeExactlyWhenImproper(s: State, id: Id, signalDelivered: bool)
    requires ThreadsInv(s) && Get(s, id).shutdown == NotCalled && !Left(Get(s, id).pc)
    ensures CanBeFreedEarly(Apply(s, BeginShutdown(id, signalDelivered)), id)
            <==> !(signalDelivered && Get(s, id).running)
  {
    var begun := Apply(s, BeginShutdown(id, signalDelivered));
    ShutdownBegins(s, id, signalDelivered);
    hide Apply, FreedTooEarly, Orderly;
    if signalDelivered && Get(s, id).running {
      BegunStaysOrderly(begun, id);
    } else if !signalDelivered {
      FreedBy(begun, [], id);
    } else {
      StepThenRun(begun, PollShutdown(id), []);
      FreedBy(begun, [PollShutdown(id)] + [], id);
    }
  }

  /** Some schedule frees the record too early. */
  ghost predicate CanBeFreedEarly(s: State, id: Id) {
    exists steps :: FreedTooEarly(Get(Run(s, steps), id))
  }

  lemma FreedBy(s: State, steps: seq<Step>, id: Id)
    requires FreedTooEarly(Get(Run(s, steps), id))
    ensures CanBeFreedEarly(s, id)
  {
  }

  lemma BegunStaysOrderly(s: State, id: Id)
    requires Orderly(Get(s, id)) && Get(s, id).shutdown != NotCalled
    ensures !CanBeFreedEarly(s, id)
  {
    forall steps
      ensures !FreedTooEarly(Get(Run(s, steps), id))
    {
      BegunRunKeepsOrder(s, steps, id);
    }
  }

  /** The first moments of a shutdown: what it comes to at once, and at the first look at running. */
  lemma ShutdownBegins(s: State, id: Id, signalDelivered: bool)
    requires ThreadsInv(s) && Get(s, id).shutdown == NotCalled && !Left(Get(s, id).pc)
    ensures var begun := Apply(s, BeginShutdown(id, signalDelivered));
            && (signalDelivered && Get(s, id).running ==> Orderly(Get(begun, id)) && Get(begun, id).shutdown != NotCalled)
            && (!signalDelivered ==> FreedTooEarly(Get(Run(begun, []), id)))
            && (signalDelivered && !Get(s, id).running ==>
                  FreedTooEarly(Get(Run(Apply(begun, PollShutdown(id)), []), id)))
  {
  }

  /** Once a shutdown has begun, how later ones are begun does not matter to it. */
  lemma {:induction false} BegunRunKeepsOrder(s: State, steps: seq<Step>, id: Id)
    requires Orderly(Get(s, id)) && Get(s, id).shutdown != NotCalled
    ensures Orderly(Get(Run(s, steps), id))
    decreases |steps|
  {
    if steps != [] {
      BegunStepKeepsOrder(s, steps[0], id);
      hide Apply;
      BegunRunKeepsOrder(Apply(s, steps[0]), steps[1..], id);
    }
  }

  lemma BegunStepKeepsOrder(s: State, step: Step, id: Id)
    requires Orderly(Get(s, id)) && Get(s, id).shutdown != NotCalled
    ensures Orderly(Get(Apply(s, step), id)) && Get(Apply(s, step), id).shutdown != NotCalled
  {
    hide ProducerStep, ClearStep, SenderMove;
    if step.Send? {
      MoveKeepsOrder(Get(s, step.id), step.id, s.lock, s.ring, s.pos, step.answer, step.delivered);
    }
  }

  // ----- After the signal ---------------------------------------------------------------------

  function CountBy(sent: seq<Record>, id: Id): nat {
    if sent == [] then 0
    else CountBy(sent[..|sent| - 1], id) + if sent[|sent| - 1].sender == id then 1 else 0
  }

  /** In the loop body, with its record still to go out. */
  predicate BeforeEmit(pc: SenderPc) {
    pc.Acquire? || pc.Test? || pc.TakeData? || pc.TakeSize? || pc.Emit?
  }

  function Due(s: State, id: Id): nat {
    if BeforeEmit(Get(s, id).pc) then 1 else 0
  }

  lemma SignalledMove(t: Sender, id: Id, lock: Lock, ring: Slots, pos: Position, answer: Answer, delivered: bool)
    requires t.signalled
    ensures var m := SenderMove(t, id, lock, ring, pos, answer, delivered);
            && m.sender.signalled && (m.sends ==> t.pc.Emit?)
            && (BeforeEmit(m.sender.pc) ==> BeforeEmit(t.pc) && !m.sends)
  {
  }

  lemma SignalledStep(s: State, step: Step, id: Id)
    requires Get(s, id).signalled
    ensures var s' := Apply(s, step);
            Get(s', id).signalled && CountBy(s'.sent, id) + Due(s', id) <= CountBy(s.sent, id) + Due(s, id)
  {
    if step.Send? {
      SignalledSend(s, step.id, step.answer, step.delivered, id);
    } else {
      OthersDoNotSend(s, step, id);
    }
  }

  lemma OthersDoNotSend(s: State, step: Step, id: Id)
    requires !step.Send?
    ensures Apply(s, step).sent == s.sent && Get(Apply(s, step), id).pc == Get(s, id).pc
    ensures Get(s, id).signalled ==> Get(Apply(s, step), id).signalled
  {
    hide ProducerStep, ClearStep;
  }

  lemma SignalledSend(s: State, who: Id, answer: Answer, delivered: bool, id: Id)
    requires Get(s, id).signalled
    ensures var s' := SenderStep(s, who, answer, delivered);
            Get(s', id).signalled && CountBy(s'.sent, id) + Due(s', id) <= CountBy(s.sent, id) + Due(s, id)
  {
    var t, s' := Get(s, who), SenderStep(s, who, answer, delivered);
    if who == id {
      SignalledMove(t, id, s.lock, s.ring, s.pos, answer, delivered);
    }
    hide SenderMove;
    if s'.sent != s.sent {
      assert s'.sent[..|s'.sent| - 1] == s.sent && s'.sent[|s.sent|].sender == who;
    }
  }

  lemma {:induction false} SignalledRun(s: State, steps: seq<Step>, id: Id)
    requires Get(s, id).signalled
    ensures var s' := Run(s, steps);
            CountBy(s'.sent, id) + Due(s', id) <= CountBy(s.sent, id) + Due(s, id)
    decreases |steps|
  {
    if steps != [] {
      SignalledStep(s, steps[0], id);
      hide Apply;
      SignalledRun(Apply(s, steps[0]), steps[1..], id);
    }
  }

  /** In every interleaving, a signalled thread starts no new loop body: it sends at most the record
      of the body it is in, and nothing if it is not in one. */
  lemma AtMostOneRecordAfterSignal(s: State, steps: seq<Step>, id: Id)
    requires Get(s, id).shutdown == NotCalled
    ensures var signalled := Apply(s, BeginShutdown(id, true));
            CountBy(Run(signalled, steps).sent, id)
            <= CountBy(s.sent, id) + if BeforeEmit(Get(s, id).pc) then 1 else 0
  {
    SignalledRun(Apply(s, BeginShutdown(id, true)), steps, id);
  }

  /** The statements a signalled thread has ahead of it, at most. */
  function Ahead(pc: SenderPc): nat {
    match pc
    case Unstarted => 4
    case SetUp => 3
    case Acquire => 9
    case Test => 8
    case TakeData(_) => 7
    case TakeSize(_, _) => 6
    case Emit(_, _) => 5
    case ReleaseSleep => 4
    case Sleep => 3
    case ReleaseRetry => 3
    case Check => 2
    case Leave => 1
    case Gone => 0
    case Aborted => 0
  }

  predicate Blocked(s: State, id: Id) {
    Get(s, id).pc == Acquire && s.lock != Free
  }

  /** How many statements a thread carries out in a run; waiting for the lock is none. */
  function OwnSteps(s: State, steps: seq<Step>, id: Id): nat
    decreases |steps|
  {
    if steps == [] then 0
    else
      (if steps[0].Send? && steps[0].id == id && !Blocked(s, id) then 1 else 0)
      + OwnSteps(Apply(s, steps[0]), steps[1..], id)
  }

  lemma SignalledStepAdvances(s: State, step: Step, id: Id)
    requires Get(s, id).signalled
    ensures var s' := Apply(s, step);
            && Get(s', id).signalled
            && Ahead(Get(s', id).pc) <= Ahead(Get(s, id).pc)
            && (step.Send? && step.id == id && !Blocked(s, id) && !Left(Get(s, id).pc) ==>
                  Ahead(Get(s', id).pc) < Ahead(Get(s, id).pc))
  {
    if !step.Send? {
      OthersDoNotSend(s, step, id);
      hide Apply;
    } else {
      SignalledMoveAdvances(Get(s, step.id), step.id, s.lock, s.ring, s.pos, step.answer, step.delivered);
      hide SenderMove, Ahead;
    }
  }

  lemma SignalledMoveAdvances(t: Sender, id: Id, lock: Lock, ring: Slots, pos: Position, answer: Answer, delivered: bool)
    ensures var m := SenderMove(t, id, lock, ring, pos, answer, delivered);
            && m.sender.signalled == t.signalled
            && (Left(t.pc) || (t.pc == Acquire && lock != Free) ==> m.sender.pc == t.pc)
            && (Left(t.pc) || (t.pc == Acquire && lock != Free) || !t.signalled || Ahead(m.sender.pc) < Ahead(t.pc))
  {
    if Holding(t.pc) {
      MoveInsideAdvances(t, id, lock, ring, pos, answer, delivered);
    } else {
      MoveOutsideAdvances(t, id, lock, ring, pos, answer, delivered);
    }
    hide SenderMove, Ahead, Holding;
  }

  lemma MoveInsideAdvances(t: Sender, id: Id, lock: Lock, ring: Slots, pos: Position, answer: Answer, delivered: bool)
    requires Holding(t.pc)
    ensures var m := SenderMove(t, id, lock, ring, pos, answer, delivered);
            && m.sender.signalled == t.signalled
            && (Left(t.pc) || (t.pc == Acquire && lock != Free) ==> m.sender.pc == t.pc)
            && (Left(t.pc) || (t.pc == Acquire && lock != Free) || !t.signalled || Ahead(m.sender.pc) < Ahead(t.pc))
  {
  }

  lemma MoveOutsideAdvances(t: Sender, id: Id, lock: Lock, ring: Slots, pos: Position, answer: Answer, delivered: bool)
    requires !Holding(t.pc)
    ensures var m := SenderMove(t, id, lock, ring, pos, answer, delivered);
            && m.sender.signalled == t.signalled
            && (Left(t.pc) || (t.pc == Acquire && lock != Free) ==> m.sender.pc == t.pc)
            && (Left(t.pc) || (t.pc == Acquire && lock != Free) || !t.signalled || Ahead(m.sender.pc) < Ahead(t.pc))
  {
  }

  /** In every interleaving, a signalled thread that gets to carry out nine statements of its own is
      gone by then, whatever the other threads do in between. */
  lemma {:induction false} SignalledThreadLeaves(s: State, steps: seq<Step>, id: Id)
    requires Get(s, id).signalled
    ensures var own := OwnSteps(s, steps, id);
            var ahead := Ahead(Get(s, id).pc);
            && Ahead(Get(Run(s, steps), id).pc) <= (if own >= ahead then 0 else ahead - own)
            && (own >= 9 ==> Left(Get(Run(s, steps), id).pc))
    decreases |steps|
  {
    if steps != [] {
      SignalledStepAdvances(s, steps[0], id);
      hide Apply;
      SignalledThreadLeaves(Apply(s, steps[0]), steps[1..], id);
    }
  }
}
