/**
 * Whether a shutdown comes to an end. It waits for running to be taken back, and the thread on its way out
 * waits for the ring's lock, which any other thread can hold.
 */
module Shutdown {
  import opened Ring
  import opened Pipeline
  import opened Handshake

  /** Some schedule lets the shutdown of a thread end. */
  ghost predicate CanEnd(s: State, id: Id) {
    exists steps :: Get(Run(s, steps), id).shutdown == Freed
  }

  lemma EndsBy(s: State, steps: seq<Step>, id: Id)
    requires Get(Run(s, steps), id).shutdown == Freed
    ensures CanEnd(s, id)
  {
  }

  lemma EndsAfter(s: State, step: Step, id: Id)
    requires CanEnd(Apply(s, step), id)
    ensures CanEnd(s, id)
  {
    hide Apply;
    var steps :| Get(Run(Apply(s, step), steps), id).shutdown == Freed;
    StepThenRun(s, step, steps);
    EndsBy(s, [step] + steps, id);
  }

  // ----- The lock is always given back --------------------------------------------------------

  /** The statements that the holder of the lock still needs, if its reads fail from now on. */
  function Work(s: State): nat {
    match s.lock
    case Free => 0
    case ByProducer => ProducerWork(s.producer, Current(s).size)
    case ByClearer => if s.clearer.Clearing? && s.clearer.index <= 64 then 66 - s.clearer.index else 0
    case BySender(id) => SenderWork(Get(s, id).pc)
  }

  function ProducerWork(pc: ProducerPc, size: int): nat {
    match pc
    case Idle => 0
    case Advance => 10
    case MarkUsed => 9
    case ClearSize => 8
    case Stamp => 7
    case Count => 6
    case AtLoop(want) => if size >= want then 4 else 3
    case AtDispatch(want) => if size < want then 4 else 3
    case ReadRegisters => 3
    case CleanUp => 2
    case Release => 1
  }

  function SenderWork(pc: SenderPc): nat {
    match pc
    case Test => 6
    case TakeData(_) => 5
    case TakeSize(_, _) => 4
    case Emit(_, _) => 3
    case ReleaseSleep => 1
    case ReleaseRetry => 1
    case _ => 0
  }

  const Fail: Step := Produce(0, 0, BlockRead(-1, []))

  /** The next statement of the lock's holder. */
  function HolderStep(lock: Lock): Step {
    match lock
    case Free => Fail
    case ByProducer => Fail
    case ByClearer => Clear
    case BySender(id) => Send(id, Ready, false)
  }

  lemma ProducerWorks(s: State)
    requires RingInv(s) && s.lock == ByProducer && s.producer != Idle
    ensures var s' := Apply(s, Fail);
            Work(s') < Work(s) && s'.netlink == s.netlink && s'.udp == s.udp
  {
    hide Next, Window;
  }

  lemma SenderWorks(t: Sender, id: Id, lock: Lock, ring: Slots, pos: Position)
    requires Holding(t.pc) && lock == BySender(id)
    ensures var m := SenderMove(t, id, lock, ring, pos, Ready, false);
            && (m.lock == Free || (m.lock == lock && SenderWork(m.sender.pc) < SenderWork(t.pc)))
            && SenderWork(t.pc) > 0
  {
  }

  /** The lock's holder can always go on, and comes nearer to giving the lock back. */
  lemma HolderWorks(s: State, id: Id)
    requires Inv(s) && s.lock != Free && s.lock != BySender(id)
    ensures var s' := Apply(s, HolderStep(s.lock));
            Work(s') < Work(s) && Get(s', id) == Get(s, id)
  {
    hide SenderMove, ProducerStep, RingInv, CopyInv, LogInv;
    match s.lock
    case ByProducer => ProducerWorks(s);
    case ByClearer => ClearerWorks(s);
    case BySender(who) => SenderWorks(Get(s, who), who, s.lock, s.ring, s.pos);
  }

  lemma ClearerWorks(s: State)
    requires RingInv(s) && s.lock == ByClearer && s.clearer.Clearing?
    ensures var s' := Apply(s, Clear);
            Work(s') < Work(s) && s'.netlink == s.netlink && s'.udp == s.udp
  {
  }

  // ----- When a shutdown ends -----------------------------------------------------------------

  lemma PollEnds(s: State, id: Id)
    requires Get(s, id).shutdown == Polling && !Get(s, id).running
    ensures CanEnd(s, id)
  {
    StepThenRun(s, PollShutdown(id), []);
    EndsBy(s, [PollShutdown(id)] + [], id);
  }

  /** The thread's own next statement, when it is not waiting for the lock. */
  lemma OwnStepAdvances(s: State, id: Id)
    requires ThreadsInv(s) && Get(s, id).shutdown == Polling && Get(s, id).running && Get(s, id).pc != Aborted
    requires !Blocked(s, id)
    ensures var s' := Apply(s, Send(id, Ready, false));
            && Get(s', id).shutdown == Polling && Get(s', id).pc != Aborted
            && Ahead(Get(s', id).pc) < Ahead(Get(s, id).pc)
  {
    SignalledStepAdvances(s, Send(id, Ready, false), id);
    hide Ahead;
  }

  lemma {:induction false} ReachesEnd(s: State, id: Id)
    requires Inv(s) && ThreadsInv(s) && Get(s, id).shutdown == Polling && Get(s, id).pc != Aborted
    ensures CanEnd(s, id)
    decreases Ahead(Get(s, id).pc), Work(s)
  {
    if !Get(s, id).running {
      PollEnds(s, id);
      return;
    }
    var step := if Blocked(s, id) then HolderStep(s.lock) else Send(id, Ready, false);
    StepKeepsInv(s, step);
    StepKeepsThreads(s, step);
    if Blocked(s, id) {
      assert s.lock != BySender(id);
      HolderWorks(s, id);
    } else {
      OwnStepAdvances(s, id);
    }
    hide Apply, Inv, ThreadsInv, Work, Ahead, CanEnd;
    ReachesEnd(Apply(s, step), id);
    EndsAfter(s, step, id);
  }

  predicate Stuck(t: Sender) {
    t.pc == Aborted && t.running && t.shutdown == Polling
  }

  lemma StepKeepsStuck(s: State, step: Step, id: Id)
    requires Stuck(Get(s, id))
    ensures Stuck(Get(Apply(s, step), id))
  {
    hide ProducerStep, ClearStep;
  }

  lemma {:induction false} RunKeepsStuck(s: State, steps: seq<Step>, id: Id)
    requires Stuck(Get(s, id))
    ensures Stuck(Get(Run(s, steps), id))
    decreases |steps|
  {
    if steps != [] {
      StepKeepsStuck(s, steps[0], id);
      hide Apply;
      RunKeepsStuck(Apply(s, steps[0]), steps[1..], id);
    }
  }

  /** In every reachable state a waiting shutdown can still end if and only if its thread has not
      returned because it could not allow its signal. The threads never lock each other out. */
  lemma ShutdownCanEndExactly(nofifo: bool, steps: seq<Step>, id: Id)
    requires Get(Run(Initial(nofifo), steps), id).shutdown == Polling
    ensures var s := Run(Initial(nofifo), steps);
            CanEnd(s, id) <==> Get(s, id).pc != Aborted
  {
    hide Apply, Run, Inv, CanEnd;
    InitialInv(nofifo);
    RunKeepsInv(Initial(nofifo), steps);
    RunKeepsThreads(Initial(nofifo), steps);
    var s := Run(Initial(nofifo), steps);
    if Get(s, id).pc == Aborted {
      NeverEnds(s, id);
    } else {
      ReachesEnd(s, id);
    }
  }

  lemma NeverEnds(s: State, id: Id)
    requires Stuck(Get(s, id))
    ensures !CanEnd(s, id)
  {
    forall steps
      ensures Get(Run(s, steps), id).shutdown != Freed
    {
      RunKeepsStuck(s, steps, id);
    }
  }

  /** Such a run: the thread is signalled before it allows the signal, cannot allow it and returns, and the
      shutdown waits for ever. */
  lemma AbortedShutdownWaitsForEver(nofifo: bool)
    ensures var s := Run(Initial(nofifo), [Send(Udp, Ready, false), BeginShutdown(Udp, true), Send(Udp, NoSignals, false)]);
            Stuck(s.udp) && !CanEnd(s, Udp)
  {
    var first, second, third := Send(Udp, Ready, false), BeginShutdown(Udp, true), Send(Udp, NoSignals, false);
    ThreeSteps(Initial(nofifo), first, second, third);
    var s := Apply(Apply(Apply(Initial(nofifo), first), second), third);
    NeverEnds(s, Udp);
  }

  lemma {:induction false} BegunStaysBegun(s: State, steps: seq<Step>, id: Id)
    requires Orderly(Get(s, id)) && Get(s, id).shutdown != NotCalled
    ensures Orderly(Get(Run(s, steps), id)) && Get(Run(s, steps), id).shutdown != NotCalled
    decreases |steps|
  {
    if steps != [] {
      BegunStepKeepsOrder(s, steps[0], id);
      hide Apply;
      BegunStaysBegun(Apply(s, steps[0]), steps[1..], id);
    }
  }

  /** In every interleaving an orderly shutdown ends at the first look at running after the thread has
      carried out the statements it had ahead, nine at most, if and only if the thread has not returned
      because it could not allow its signal. */
  lemma ShutdownEndsInTime(s: State, steps: seq<Step>, id: Id)
    requires Orderly(Get(s, id)) && Get(s, id).shutdown != NotCalled
    requires OwnSteps(s, steps, id) >= Ahead(Get(s, id).pc)
    ensures Ahead(Get(s, id).pc) <= 9
    ensures Get(Run(s, steps + [PollShutdown(id)]), id).shutdown == Freed
            <==> Get(Run(s, steps), id).pc != Aborted
  {
    SignalledThreadLeaves(s, steps, id);
    BegunStaysBegun(s, steps, id);
    RunInParts(s, steps, [PollShutdown(id)]);
    var t := Run(s, steps);
    assert Run(t, [PollShutdown(id)]) == Apply(t, PollShutdown(id)) by {
      StepThenRun(t, PollShutdown(id), []);
      assert [PollShutdown(id)] + [] == [PollShutdown(id)];
    }
    hide Run;
  }
}
