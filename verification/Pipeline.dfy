/**
 * The kernel sampling pipeline as an interleaving of its threads: one producer, the clear
 * operation, two sender threads with their shutdown, all around one mutex. A step is one statement
 * of one thread, so every schedule of the threads is a sequence of steps.
 */
module Pipeline {
  import opened Ring

  datatype Id = Netlink | Udp
  datatype Lock = Free | ByProducer | ByClearer | BySender(id: Id)

  // Where the producer is in i2c_mpu6050_wq_read_handler.
  datatype ProducerPc =
    | Idle | Advance | MarkUsed | ClearSize | Stamp | Count
    | AtLoop(want: int) | AtDispatch(want: int) | ReadRegisters | CleanUp | Release

  // Where a clear is; slots below index are done.
  datatype ClearPc = NotClearing | Clearing(index: nat)

  type Index = i: int | 0 <= i < 64

  // Where a sender thread is; TakeData to Emit copy the slot out piece by piece. A thread that cannot
  // allow its signal is Aborted: it has returned without taking back running.
  datatype SenderPc =
    | Unstarted | SetUp | Check | Acquire | Test
    | TakeData(slot: Index) | TakeSize(slot: Index, data: Block) | Emit(data: Block, size: int)
    | ReleaseRetry | ReleaseSleep | Sleep | Leave | Gone | Aborted

  // Where the shutdown of a sender is; after Freed its server record is gone.
  datatype Shutdown = NotCalled | Polling | Freed

  datatype Sender = Sender(pc: SenderPc, running: bool, signalled: bool, shutdown: Shutdown)

  /** A record that went out, with the history at that moment: how many runs were complete, and how
      many of them the last clear had already seen. */
  datatype Record = Record(sender: Id, data: Block, size: int, completed: nat, cleared: nat)

  datatype State = State(
    nofifo: bool,
    ring: Slots,
    pos: Position,
    lock: Lock,
    producer: ProducerPc,
    clearer: ClearPc,
    netlink: Sender,
    udp: Sender,
    runs: seq<Slot>,
    cleared: nat,
    sent: seq<Record>)

  // What the kernel answers a starting sender.
  datatype Answer = Ready | NoSignals | NoSocket

  datatype Step =
    | Produce(now: int, count: int, reply: Reply)
    | Clear
    | Send(id: Id, answer: Answer, delivered: bool)
    | BeginShutdown(id: Id, signalDelivered: bool)
    | PollShutdown(id: Id)

  function Initial(nofifo: bool): State {
    var unstarted := Sender(Unstarted, false, false, NotCalled);
    State(nofifo, seq(64, _ => Slot(false, seq(14, _ => 0), 0, 0)), -1, Free, Idle, NotClearing,
          unstarted, unstarted, [], 0, [])
  }

  function Get(s: State, id: Id): Sender {
    if id == Netlink then s.netlink else s.udp
  }

  function Put(s: State, id: Id, t: Sender): State {
    if id == Netlink then s.(netlink := t) else s.(udp := t)
  }

  // ----- The threads --------------------------------------------------------------------------

  /** Puts a changed slot back at the position. */
  function Write(s: State, slot: Slot, pc: ProducerPc): State {
    if s.pos == -1 then s else s.(ring := s.ring[s.pos := slot], producer := pc)
  }

  function Current(s: State): Slot {
    if s.pos == -1 then s.ring[0] else s.ring[s.pos]
  }

  function ProducerStep(s: State, now: int, count: int, reply: Reply): (r: State)
    ensures r == s.(ring := r.ring, pos := r.pos, lock := r.lock, producer := r.producer, runs := r.runs)
  {
    var slot := Current(s);
    match s.producer
    case Idle => if s.lock == Free then s.(lock := ByProducer, producer := Advance) else s
    case Advance => s.(pos := Next(s.pos), producer := MarkUsed)
    case MarkUsed => Write(s, slot.(used := true), ClearSize)
    case ClearSize => Write(s, slot.(size := 0), Stamp)
    case Stamp => Write(s, slot.(timestamp := now), if s.nofifo then ReadRegisters else Count)
    case Count => s.(producer := if count <= 0 then CleanUp else AtLoop(count))
    case AtLoop(want) =>
      if slot.size >= want then s.(producer := AtDispatch(want))
      else if reply.result < 0 then s.(producer := CleanUp)
      else Write(s, Take(slot, reply), AtDispatch(want))
    case AtDispatch(want) => s.(producer := if slot.size < want then AtLoop(want) else Release)
    case ReadRegisters => Write(s, slot.(data := Filled(slot.data, reply), size := reply.result), Release)
    case CleanUp => Write(s, slot.(used := false), Release)
    case Release => s.(lock := Free, producer := Idle, runs := s.runs + [slot])
  }

  function ClearStep(s: State): (r: State)
    ensures r == s.(ring := r.ring, lock := r.lock, clearer := r.clearer, cleared := r.cleared)
  {
    match s.clearer
    case NotClearing => if s.lock == Free then s.(lock := ByClearer, clearer := Clearing(0)) else s
    case Clearing(i) =>
      if i < 64 then s.(ring := s.ring[i := s.ring[i].(used := false)], clearer := Clearing(i + 1))
      else s.(lock := Free, clearer := NotClearing, cleared := |s.runs|)
  }

  /** The outcome of one statement of a sender thread: what it leaves of the thread and of the lock,
      and whether it has sent what it had copied. */
  datatype Move = Move(sender: Sender, lock: Lock, sends: bool)

  function SenderMove(t: Sender, id: Id, lock: Lock, ring: Slots, pos: Position, answer: Answer, delivered: bool): Move {
    match t.pc
    case Unstarted => Move(if t.running then t.(pc := Gone) else t.(running := true, pc := SetUp), lock, false)
    case SetUp =>
      var next := match answer
                  case Ready => Check
                  case NoSignals => Aborted
                  case NoSocket => if id == Udp then Leave else Check;
      Move(t.(pc := next), lock, false)
    case Check => Move(t.(pc := if t.signalled then Leave else Acquire), lock, false)
    case Acquire => if lock == Free then Move(t.(pc := Test), BySender(id), false) else Move(t, lock, false)
    case Test =>
      Move(t.(pc := if pos == -1 || !ring[pos].used then ReleaseRetry else TakeData(pos)), lock, false)
    case TakeData(i) => Move(t.(pc := TakeSize(i, ring[i].data)), lock, false)
    case TakeSize(i, data) => Move(t.(pc := Emit(data, ring[i].size)), lock, false)
    case Emit(_, _) => Move(t.(pc := ReleaseSleep), lock, delivered)
    case ReleaseRetry => Move(t.(pc := Check), Free, false)
    case ReleaseSleep => Move(t.(pc := Sleep), Free, false)
    case Sleep => Move(t.(pc := Check), lock, false)
    case Leave => Move(t.(running := false, pc := Gone), lock, false)
    case Gone => Move(t, lock, false)
    case Aborted => Move(t, lock, false)
  }

  function SenderStep(s: State, id: Id, answer: Answer, delivered: bool): State {
    var t := Get(s, id);
    var m := SenderMove(t, id, s.lock, s.ring, s.pos, answer, delivered);
    var sent := if m.sends && t.pc.Emit?
                then s.sent + [Record(id, t.pc.data, t.pc.size, |s.runs|, s.cleared)] else s.sent;
    Put(s.(lock := m.lock, sent := sent), id, m.sender)
  }

  /** The shutdown call: it signals the thread, waits until running is taken back, and frees the
      server record; when the signal cannot be sent it frees the record at once. */
  function ShutdownStep(t: Sender, begin: bool, signalDelivered: bool): Sender {
    match t.shutdown
    case NotCalled =>
      if !begin then t
      else if signalDelivered then t.(signalled := true, shutdown := Polling)
      else t.(shutdown := Freed)
    case Polling => if begin || t.running then t else t.(shutdown := Freed)
    case Freed => t
  }

  function Apply(s: State, step: Step): State {
    match step
    case Produce(now, count, reply) => ProducerStep(s, now, count, reply)
    case Clear => ClearStep(s)
    case Send(id, answer, delivered) => SenderStep(s, id, answer, delivered)
    case BeginShutdown(id, ok) => Put(s, id, ShutdownStep(Get(s, id), true, ok))
    case PollShutdown(id) => Put(s, id, ShutdownStep(Get(s, id), false, false))
  }

  function Run(s: State, steps: seq<Step>): State
    decreases |steps|
  {
    if steps == [] then s else Run(Apply(s, steps[0]), steps[1..])
  }

  // ----- Invariants ---------------------------------------------------------------------------

  predicate BeforeAdvance(pc: ProducerPc) {
    pc in {Idle, Advance}
  }

  /** Whether run j has not been reached by a clear, finished or under way. */
  predicate Live(s: State, j: nat) {
    j >= s.cleared && (s.clearer.Clearing? ==> j % 64 >= s.clearer.index)
  }

  /** The runs from number from on are in their slots. */
  predicate Window(s: State, from: int) {
    forall j: nat :: from <= j < |s.runs| ==> Holds(s.ring[j % 64], s.runs[j], Live(s, j))
  }

  /** The ring holds the last 64 completed runs, or the last 63 while the producer is at work on the
      slot of the one before. */
  predicate RingInv(s: State) {
    && s.cleared <= |s.runs|
    && (s.clearer.Clearing? ==> s.clearer.index <= 64)
    && (if BeforeAdvance(s.producer) then s.pos == LastPosition(|s.runs|) && Window(s, |s.runs| - 64)
        else s.pos == |s.runs| % 64 && Window(s, |s.runs| - 63))
  }

  predicate Holding(pc: SenderPc) {
    pc.Test? || pc.TakeData? || pc.TakeSize? || pc.Emit? || pc.ReleaseRetry? || pc.ReleaseSleep?
  }

  predicate LockInv(s: State) {
    && (s.lock == ByProducer <==> s.producer != Idle)
    && (s.lock == ByClearer <==> s.clearer.Clearing?)
    && (s.lock == BySender(Netlink) <==> Holding(s.netlink.pc))
    && (s.lock == BySender(Udp) <==> Holding(s.udp.pc))
  }

  /** What a sender has copied so far belongs to the newest slot, which is in use. */
  predicate Copied(pc: SenderPc, ring: Slots, pos: Position) {
    match pc
    case TakeData(i) => i == pos && ring[i].used
    case TakeSize(i, data) => i == pos && ring[i].used && data == ring[i].data
    case Emit(data, size) => pos != -1 && ring[pos].used && data == ring[pos].data && size == ring[pos].size
    case _ => true
  }

  predicate CopyInv(s: State) {
    Copied(s.netlink.pc, s.ring, s.pos) && Copied(s.udp.pc, s.ring, s.pos)
  }

  /** A record is the newest run that was complete when it was sent, whole, left in use and not
      cleared since. */
  predicate Honest(r: Record, runs: seq<Slot>) {
    && 0 < r.completed <= |runs|
    && HasNews(runs[..r.completed], r.cleared)
    && r.data == runs[r.completed - 1].data && r.size == runs[r.completed - 1].size
  }

  predicate LogInv(s: State) {
    && (forall r :: r in s.sent ==> Honest(r, s.runs))
    && (forall i, j :: 0 <= i < j < |s.sent| ==> s.sent[i].completed <= s.sent[j].completed)
  }

  predicate Inv(s: State) {
    RingInv(s) && LockInv(s) && CopyInv(s) && LogInv(s)
  }

  lemma InitialInv(nofifo: bool)
    ensures Inv(Initial(nofifo))
  {
  }

  lemma ProducerKeepsInv(s: State, now: int, count: int, reply: Reply)
    requires Inv(s)
    ensures Inv(ProducerStep(s, now, count, reply))
  {
    var s' := ProducerStep(s, now, count, reply);
    if s.producer == Idle {
    } else if s.producer == Advance {
      NextPositionIsFree(|s.runs|);
    } else if s.producer == Release {
      ReleaseKeepsRing(s, s');
      HistoryGrows(s.sent, s.runs, s.ring[s.pos]);
    } else {
      WorkKeepsWindow(s, s');
    }
  }

  /** While the producer works it touches only the slot at the position. */
  lemma WorkKeepsWindow(s: State, s': State)
    requires RingInv(s) && !BeforeAdvance(s.producer) && !BeforeAdvance(s'.producer)
    requires s' == s.(ring := s'.ring, producer := s'.producer) && s'.ring == s.ring[s.pos := s'.ring[s.pos]]
    ensures RingInv(s')
  {
    forall j: nat | |s.runs| - 63 <= j < |s.runs|
      ensures Holds(s'.ring[j % 64], s'.runs[j], Live(s', j))
    {
      SlotsAreApart(j, |s.runs|);
      assert Holds(s.ring[j % 64], s.runs[j], Live(s, j));
    }
  }

  lemma ReleaseKeepsRing(s: State, s': State)
    requires RingInv(s) && s.producer == Release && s.clearer == NotClearing
    requires s' == s.(lock := Free, producer := Idle, runs := s.runs + [s.ring[s.pos]])
    ensures RingInv(s')
  {
    forall j: nat | |s'.runs| - 64 <= j < |s'.runs|
      ensures Holds(s'.ring[j % 64], s'.runs[j], Live(s', j))
    {
      if j < |s.runs| {
        assert Holds(s.ring[j % 64], s.runs[j], Live(s, j));
      }
    }
  }

  lemma HistoryGrows(sent: seq<Record>, runs: seq<Slot>, run: Slot)
    requires forall r :: r in sent ==> Honest(r, runs)
    ensures forall r :: r in sent ==> Honest(r, runs + [run])
  {
    forall r | r in sent
      ensures Honest(r, runs + [run])
    {
      assert (runs + [run])[..r.completed] == runs[..r.completed];
    }
  }

  lemma ClearKeepsInv(s: State)
    requires Inv(s)
    ensures Inv(ClearStep(s))
  {
    var s' := ClearStep(s);
    if s.clearer.Clearing? {
      forall j: nat | |s.runs| - 64 <= j < |s.runs|
        ensures Holds(s'.ring[j % 64], s'.runs[j], Live(s', j))
      {
        assert Holds(s.ring[j % 64], s.runs[j], Live(s, j));
      }
    }
  }

  lemma SenderKeepsInv(s: State, id: Id, answer: Answer, delivered: bool)
    requires Inv(s)
    ensures Inv(SenderStep(s, id, answer, delivered))
  {
    SenderKeepsRing(s, id, answer, delivered);
    SenderKeepsLock(s, id, answer, delivered);
    SenderKeepsLog(s, id, answer, delivered);
  }

  lemma SenderKeepsRing(s: State, id: Id, answer: Answer, delivered: bool)
    requires RingInv(s)
    ensures RingInv(SenderStep(s, id, answer, delivered))
  {
    var s' := SenderStep(s, id, answer, delivered);
    assert s' == s.(lock := s'.lock, netlink := s'.netlink, udp := s'.udp, sent := s'.sent);
    hide SenderStep;
    forall j: nat | Live(s, j)
      ensures Live(s', j)
    {
    }
  }

  lemma MoveKeepsLock(t: Sender, id: Id, lock: Lock, ring: Slots, pos: Position, answer: Answer, delivered: bool)
    requires lock == BySender(id) <==> Holding(t.pc)
    requires Copied(t.pc, ring, pos)
    ensures var m := SenderMove(t, id, lock, ring, pos, answer, delivered);
            && (m.lock == BySender(id) <==> Holding(m.sender.pc))
            && (m.lock == lock || (lock == Free && m.lock == BySender(id)) || (lock == BySender(id) && m.lock == Free))
            && Copied(m.sender.pc, ring, pos)
            && (m.sends ==> t.pc.Emit? && delivered)
  {
  }

  lemma SenderKeepsLock(s: State, id: Id, answer: Answer, delivered: bool)
    requires LockInv(s) && CopyInv(s)
    ensures LockInv(SenderStep(s, id, answer, delivered)) && CopyInv(SenderStep(s, id, answer, delivered))
  {
    MoveKeepsLock(Get(s, id), id, s.lock, s.ring, s.pos, answer, delivered);
    hide SenderMove, Holding, Copied;
  }

  lemma SenderKeepsLog(s: State, id: Id, answer: Answer, delivered: bool)
    requires Inv(s)
    ensures LogInv(SenderStep(s, id, answer, delivered))
  {
    var t, s' := Get(s, id), SenderStep(s, id, answer, delivered);
    if t.pc.Emit? && delivered {
      var r := Record(id, t.pc.data, t.pc.size, |s.runs|, s.cleared);
      assert s'.runs == s.runs && s'.sent == s.sent + [r];
      EmitIsHonest(s, id, t.pc.data, t.pc.size);
      hide SenderStep, Honest;
      assert forall q :: q in s'.sent ==> q in s.sent || q == r;
      assert forall i :: 0 <= i < |s.sent| ==> s.sent[i] in s.sent;
      OldRecordsAreOlder(s.sent, s.runs);
    } else {
      assert s'.runs == s.runs && s'.sent == s.sent;
    }
  }

  lemma OldRecordsAreOlder(sent: seq<Record>, runs: seq<Slot>)
    requires forall r :: r in sent ==> Honest(r, runs)
    ensures forall i :: 0 <= i < |sent| ==> sent[i].completed <= |runs|
  {
    forall i | 0 <= i < |sent|
      ensures sent[i].completed <= |runs|
    {
      assert sent[i] in sent;
    }
  }

  lemma EmitIsHonest(s: State, id: Id, data: Block, size: int)
    requires Inv(s) && Get(s, id).pc == Emit(data, size)
    ensures Honest(Record(id, data, size, |s.runs|, s.cleared), s.runs)
  {
    assert Refines(s.ring, s.pos, s.runs, s.cleared) by {
      forall j: nat | |s.runs| - 64 <= j < |s.runs|
        ensures Holds(s.ring[j % 64], s.runs[j], j >= s.cleared)
      {
        assert Holds(s.ring[j % 64], s.runs[j], Live(s, j));
      }
    }
    SenderTestIsHasNews(s.ring, s.pos, s.runs, s.cleared);
    assert s.runs[..|s.runs|] == s.runs;
  }

  lemma StepKeepsInv(s: State, step: Step)
    requires Inv(s)
    ensures Inv(Apply(s, step))
  {
    match step
    case Produce(now, count, reply) => ProducerKeepsInv(s, now, count, reply);
    case Clear => ClearKeepsInv(s);
    case Send(id, answer, delivered) => SenderKeepsInv(s, id, answer, delivered);
    case BeginShutdown(id, ok) => ShutdownKeepsInv(s, Apply(s, step));
    case PollShutdown(id) => ShutdownKeepsInv(s, Apply(s, step));
  }

  lemma ShutdownKeepsInv(s: State, s': State)
    requires Inv(s)
    requires s' == s.(netlink := s'.netlink, udp := s'.udp)
    requires s'.netlink.pc == s.netlink.pc && s'.udp.pc == s.udp.pc
    ensures Inv(s')
  {
    assert forall j: nat :: Live(s, j) <==> Live(s', j);
  }

  lemma {:induction false} RunKeepsInv(s: State, steps: seq<Step>)
    requires Inv(s)
    ensures Inv(Run(s, steps))
    decreases |steps|
  {
    if steps != [] {
      StepKeepsInv(s, steps[0]);
      RunKeepsInv(Apply(s, steps[0]), steps[1..]);
    }
  }

  // ----- Main results on records and ring -----------------------------------------------------

  /** In every interleaving, every record sent is the newest run that was complete at that moment,
      whole, left in use and not cleared since; and records never go back to an older run. */
  lemma EveryRecordIsTheNewestRun(nofifo: bool, steps: seq<Step>)
    ensures var s := Run(Initial(nofifo), steps);
            && (forall r :: r in s.sent ==> Honest(r, s.runs))
            && (forall i, j :: 0 <= i < j < |s.sent| ==> s.sent[i].completed <= s.sent[j].completed)
  {
    InitialInv(nofifo);
    RunKeepsInv(Initial(nofifo), steps);
  }

  /** In every interleaving, whenever neither producer nor clear is at work, the ring refines the
      history of completed runs. */
  lemma RingRefinesHistory(nofifo: bool, steps: seq<Step>)
    ensures var s := Run(Initial(nofifo), steps);
            BeforeAdvance(s.producer) && s.clearer == NotClearing ==> Refines(s.ring, s.pos, s.runs, s.cleared)
  {
    InitialInv(nofifo);
    RunKeepsInv(Initial(nofifo), steps);
    var s := Run(Initial(nofifo), steps);
    if BeforeAdvance(s.producer) && s.clearer == NotClearing {
      forall j: nat | |s.runs| - 64 <= j < |s.runs|
        ensures Holds(s.ring[j % 64], s.runs[j], j >= s.cleared)
      {
        assert Holds(s.ring[j % 64], s.runs[j], Live(s, j));
      }
    }
  }

  // ----- The steps of a clear add up ----------------------------------------------------------

  function Clears(n: nat): seq<Step> {
    if n == 0 then [] else [Clear] + Clears(n - 1)
  }

  lemma {:induction false} ClearGoesOn(s: State, i: nat)
    requires s.clearer == Clearing(i) && i <= 64
    ensures var t := Run(s, Clears(65 - i));
            && t == s.(ring := t.ring, lock := Free, clearer := NotClearing, cleared := |s.runs|)
            && forall j :: 0 <= j < 64 ==> t.ring[j] == if j < i then s.ring[j] else s.ring[j].(used := false)
    decreases 64 - i
  {
    var n := 64 - i;
    assert Clears(n + 1) == [Clear] + Clears(n);
    var s' := Apply(s, Clear);
    assert Run(s, Clears(n + 1)) == Run(s', Clears(n)) by {
      StepThenRun(s, Clear, Clears(n));
    }
    if i < 64 {
      assert s' == s.(ring := s.ring[i := s.ring[i].(used := false)], clearer := Clearing(i + 1));
      hide Apply, Run, Clears;
      ClearGoesOn(s', i + 1);
    } else {
      assert Clears(0) == [];
    }
  }

  /** Left alone, the steps of a clear take the mark from all slots, change nothing else of them, and give
      the lock back. */
  lemma ClearStepsClear(s: State)
    requires s.lock == Free && s.clearer == NotClearing
    ensures var t := Run(s, [Clear] + Clears(65));
            && t == s.(ring := t.ring, cleared := |s.runs|)
            && forall j :: 0 <= j < 64 ==> t.ring[j] == s.ring[j].(used := false)
  {
    StepThenRun(s, Clear, Clears(65));
    assert Apply(s, Clear) == s.(lock := ByClearer, clearer := Clearing(0));
    hide Apply, Run, Clears;
    ClearGoesOn(s.(lock := ByClearer, clearer := Clearing(0)), 0);
  }

  // ----- The producer's steps add up to its critical section ----------------------------------

  const NoInput: Step := Produce(0, 0, BlockRead(0, []))

  /** The producer's steps from a label of the drain loop on. */
  function DrainSteps(at: Label, slot: Slot, want: int, replies: seq<Reply>): seq<Step>
    decreases |replies|, if (at == DoLoop) == (slot.size < want) then 0 else 1
  {
    match at
    case DoLoop =>
      if slot.size >= want then [NoInput] + DrainSteps(DoDispatch, slot, want, replies)
      else if replies == [] then []
      else if replies[0].result < 0 then [Produce(0, 0, replies[0]), NoInput, NoInput]
      else [Produce(0, 0, replies[0])] + DrainSteps(DoDispatch, Take(slot, replies[0]), want, replies[1..])
    case DoDispatch =>
      if slot.size < want then [NoInput] + DrainSteps(DoLoop, slot, want, replies) else [NoInput, NoInput]
  }

  function PcOf(at: Label, want: int): ProducerPc {
    if at == DoLoop then AtLoop(want) else AtDispatch(want)
  }

  /** The state after a drain that came out in some way. */
  function Drained(s: State, d: Ring.Drained, want: int): State
    requires s.pos != -1
  {
    match d
    case Complete(slot, _) => Published(s, slot)
    case Failed(slot, _) => Published(s, slot.(used := false))
    case Unfinished(slot) => s.(ring := s.ring[s.pos := slot], producer := AtLoop(want))
  }

  /** The state after the producer has put a slot at the position and left. */
  function Published(s: State, slot: Slot): State
    requires s.pos != -1
  {
    s.(ring := s.ring[s.pos := slot], lock := Free, producer := Idle, runs := s.runs + [slot])
  }

  lemma {:induction false} DrainStepsDrain(s: State, at: Label, want: int, replies: seq<Reply>)
    requires s.pos != -1 && s.producer == PcOf(at, want)
    ensures Run(s, DrainSteps(at, s.ring[s.pos], want, replies))
            == Drained(s, Jump(at, s.ring[s.pos], want, replies), want)
    decreases |replies|, if (at == DoLoop) == (s.ring[s.pos].size < want) then 0 else 1
  {
    var slot := s.ring[s.pos];
    DrainStep(s, at, want, if replies == [] then BlockRead(0, []) else replies[0]);
    hide Apply;
    if at == DoLoop && slot.size < want {
      if replies == [] {
        assert s.ring[s.pos := slot] == s.ring;
      } else if replies[0].result < 0 {
        ThreeSteps(s, Produce(0, 0, replies[0]), NoInput, NoInput);
      } else {
        var read := Produce(0, 0, replies[0]);
        var s' := Apply(s, read);
        StepThenRun(s, read, DrainSteps(DoDispatch, Take(slot, replies[0]), want, replies[1..]));
        DrainStepsDrain(s', DoDispatch, want, replies[1..]);
        WrittenTwice(s, s', Jump(DoDispatch, Take(slot, replies[0]), want, replies[1..]), want);
      }
    } else if at == DoLoop {
      StepThenRun(s, NoInput, DrainSteps(DoDispatch, slot, want, replies));
      DrainStepsDrain(Apply(s, NoInput), DoDispatch, want, replies);
    } else if slot.size < want {
      StepThenRun(s, NoInput, DrainSteps(DoLoop, slot, want, replies));
      DrainStepsDrain(Apply(s, NoInput), DoLoop, want, replies);
    } else {
      TwoSteps(s, NoInput, NoInput);
      assert s.ring[s.pos := slot] == s.ring;
    }
  }

  /** The single steps of the drain. */
  lemma DrainStep(s: State, at: Label, want: int, reply: Reply)
    requires s.pos != -1 && s.producer == PcOf(at, want)
    ensures var slot, read := s.ring[s.pos], Produce(0, 0, reply);
            && (at == DoLoop && slot.size >= want ==> Apply(s, NoInput) == s.(producer := AtDispatch(want)))
            && (at == DoDispatch && slot.size < want ==> Apply(s, NoInput) == s.(producer := AtLoop(want)))
            && (at == DoDispatch && slot.size >= want ==> Apply(Apply(s, NoInput), NoInput) == Published(s, slot))
            && (at == DoLoop && slot.size < want && reply.result >= 0 ==>
                  Apply(s, read) == s.(ring := s.ring[s.pos := Take(slot, reply)], producer := AtDispatch(want)))
            && (at == DoLoop && slot.size < want && reply.result < 0 ==>
                  Apply(Apply(Apply(s, read), NoInput), NoInput) == Published(s, slot.(used := false)))
  {
    assert s.ring[s.pos := s.ring[s.pos]] == s.ring;
  }

  lemma WrittenTwice(s: State, s': State, d: Ring.Drained, want: int)
    requires s.pos != -1
    requires s' == s.(ring := s'.ring, producer := s'.producer) && s'.ring == s.ring[s.pos := s'.ring[s.pos]]
    ensures Drained(s', d, want) == Drained(s, d, want) == Drained(s, OneMore(d), want)
  {
    assert s'.ring[s.pos := d.slot] == s.ring[s.pos := d.slot];
    assert s'.ring[s.pos := d.slot.(used := false)] == s.ring[s.pos := d.slot.(used := false)];
  }

  lemma StepThenRun(s: State, a: Step, rest: seq<Step>)
    ensures Run(s, [a] + rest) == Run(Apply(s, a), rest)
  {
    assert ([a] + rest)[1..] == rest;
  }

  lemma TwoSteps(s: State, a: Step, b: Step)
    ensures Run(s, [a, b]) == Apply(Apply(s, a), b)
  {
    hide Apply;
    assert [a, b][1..] == [b] && [b][1..] == [];
    assert Run(Apply(s, a), [b]) == Run(Apply(Apply(s, a), b), []);
  }

  lemma ThreeSteps(s: State, a: Step, b: Step, c: Step)
    ensures Run(s, [a, b, c]) == Apply(Apply(Apply(s, a), b), c)
  {
    assert [a, b, c][1..] == [b, c];
    TwoSteps(Apply(s, a), b, c);
  }

  lemma {:induction false} RunInParts(s: State, first: seq<Step>, rest: seq<Step>)
    ensures Run(s, first + rest) == Run(Run(s, first), rest)
    decreases |first|
  {
    if first == [] {
      assert first + rest == rest;
    } else {
      assert (first + rest)[1..] == first[1..] + rest;
      RunInParts(Apply(s, first[0]), first[1..], rest);
    }
  }

  /** The steps of one run of the producer after it has marked its slot. */
  function ClosingSteps(begun: Slot, nofifo: bool, count: int, replies: seq<Reply>): seq<Step> {
    if nofifo then (if replies == [] then [] else [Produce(0, 0, replies[0]), NoInput])
    else if count <= 0 then [Produce(0, count, BlockRead(0, [])), NoInput, NoInput]
    else [Produce(0, count, BlockRead(0, []))] + DrainSteps(DoLoop, begun, count, replies)
  }

  /** All steps of one run of the producer. */
  function SampleSteps(slot: Slot, now: int, nofifo: bool, count: int, replies: seq<Reply>): seq<Step> {
    [NoInput, NoInput] + [NoInput, NoInput, Produce(now, 0, BlockRead(0, []))]
    + ClosingSteps(slot.(used := true, size := 0, timestamp := now), nofifo, count, replies)
  }

  /** Left alone, the producer's steps from lock to unlock do what its critical section is specified
      to do in one go: the next slot gets the sample, nothing else in the ring changes. */
  lemma ProducerStepsSample(s: State, now: int, count: int, replies: seq<Reply>)
    requires s.lock == Free && s.producer == Idle
    ensures var pos := Next(s.pos);
            var r := Sample(s.ring[pos], now, s.nofifo, count, replies);
            var s' := Run(s, SampleSteps(s.ring[pos], now, s.nofifo, count, replies));
            && s'.ring == s.ring[pos := r.slot] && s'.pos == pos
            && (r.Finished? ==> s' == Published(s.(pos := pos), r.slot))
            && (r.Inside? ==> s'.lock == ByProducer && s'.runs == s.runs)
  {
    var pos := Next(s.pos);
    var slot := s.ring[pos];
    var opening := [NoInput, NoInput] + [NoInput, NoInput, Produce(now, 0, BlockRead(0, []))];
    var rest := ClosingSteps(slot.(used := true, size := 0, timestamp := now), s.nofifo, count, replies);
    OpeningSteps(s, now);
    hide Apply;
    assert SampleSteps(slot, now, s.nofifo, count, replies) == opening + rest;
    RunInParts(s, opening, rest);
    var t := Run(s, opening);
    ClosingStepsClose(t, count, replies);
    var r := Sample(slot, now, s.nofifo, count, replies);
    assert t.ring[pos := r.slot] == s.ring[pos := r.slot];
  }

  lemma ClosingStepsClose(t: State, count: int, replies: seq<Reply>)
    requires t.pos != -1 && t.lock == ByProducer
    requires t.producer == if t.nofifo then ReadRegisters else Count
    requires var slot := t.ring[t.pos]; slot.used && slot.size == 0
    ensures var slot := t.ring[t.pos];
            var r := Sample(slot, slot.timestamp, t.nofifo, count, replies);
            var t' := Run(t, ClosingSteps(slot, t.nofifo, count, replies));
            && t'.ring == t.ring[t.pos := r.slot] && t'.pos == t.pos
            && (r.Finished? ==> t' == Published(t, r.slot))
            && (r.Inside? ==> t'.lock == ByProducer && t'.runs == t.runs)
  {
    var slot := t.ring[t.pos];
    assert slot.(used := true, size := 0, timestamp := slot.timestamp) == slot;
    if t.nofifo {
      if replies == [] {
        assert t.ring[t.pos := slot] == t.ring;
      } else {
        TwoSteps(t, Produce(0, 0, replies[0]), NoInput);
      }
    } else if count <= 0 {
      ThreeSteps(t, Produce(0, count, BlockRead(0, [])), NoInput, NoInput);
    } else {
      var first := Produce(0, count, BlockRead(0, []));
      var u := Apply(t, first);
      assert u == t.(producer := AtLoop(count));
      hide Apply;
      StepThenRun(t, first, DrainSteps(DoLoop, slot, count, replies));
      DrainStepsDrain(u, DoLoop, count, replies);
      JumpingIsLooping(DoLoop, slot, count, replies);
    }
  }

  lemma OpeningSteps(s: State, now: int)
    requires s.lock == Free && s.producer == Idle
    ensures var pos := Next(s.pos);
            Run(s, [NoInput, NoInput] + [NoInput, NoInput, Produce(now, 0, BlockRead(0, []))])
            == s.(lock := ByProducer, pos := pos,
                  ring := s.ring[pos := s.ring[pos].(used := true, size := 0, timestamp := now)],
                  producer := if s.nofifo then ReadRegisters else Count)
  {
    var stamp := Produce(now, 0, BlockRead(0, []));
    RunInParts(s, [NoInput, NoInput], [NoInput, NoInput, stamp]);
    TwoSteps(s, NoInput, NoInput);
    var t := Apply(Apply(s, NoInput), NoInput);
    ThreeSteps(t, NoInput, NoInput, stamp);
  }
}
