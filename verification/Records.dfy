/**
 * What is in the records: an observer of the interleaved threads notes what each run of the producer
 * read from the device, and every run and every record is traced back to it.
 */
module Records {
  import opened Words
  import opened Ring
  import opened Pipeline
  import Readout

  /** What went into a run: its slot as it was, the time, the device's byte count and its replies. */
  datatype Inputs = Inputs(before: Slot, now: int, count: int, replies: seq<Reply>)

  datatype Watch = Watch(state: State, current: Inputs, done: seq<Inputs>)

  function Begin(nofifo: bool): Watch {
    Watch(Initial(nofifo), Inputs(Initial(nofifo).ring[0], 0, 0, []), [])
  }

  function Note(s: State, now: int, count: int, reply: Reply, i: Inputs): Inputs {
    match s.producer
    case Advance => Inputs(s.ring[Next(s.pos)], 0, 0, [])
    case Stamp => i.(now := now)
    case Count => i.(count := count)
    case AtLoop(want) => if Current(s).size < want then i.(replies := i.replies + [reply]) else i
    case ReadRegisters => i.(replies := i.replies + [reply])
    case _ => i
  }

  function Observe(w: Watch, step: Step): Watch {
    var next := w.(state := Apply(w.state, step));
    if !step.Produce? then next
    else if w.state.producer == Release then next.(done := w.done + [w.current])
    else next.(current := Note(w.state, step.now, step.count, step.reply, w.current))
  }

  function ObserveAll(w: Watch, steps: seq<Step>): Watch
    decreases |steps|
  {
    if steps == [] then w else ObserveAll(Observe(w, steps[0]), steps[1..])
  }

  lemma {:induction false} ObservingChangesNothing(w: Watch, steps: seq<Step>)
    ensures ObserveAll(w, steps).state == Run(w.state, steps)
    decreases |steps|
  {
    if steps != [] {
      ObservingChangesNothing(Observe(w, steps[0]), steps[1..]);
      hide Apply, Note;
    }
  }

  // ----- Every run is a sample ----------------------------------------------------------------

  predicate Succeeded(replies: seq<Reply>) {
    forall r :: r in replies ==> r.result >= 0
  }

  predicate Bounded(replies: seq<Reply>, most: int) {
    forall r :: r in replies ==> r.result <= most
  }

  /** A slot as a finished run is specified to leave it, and what its size says about the replies. */
  predicate Sampled(slot: Slot, nofifo: bool, i: Inputs) {
    && Sample(i.before, i.now, nofifo, i.count, i.replies) == Finished(slot)
    && HoldsBytes(slot, i)
    && (slot.used ==> slot.size == Total(i.replies))
    && (nofifo ==> |i.replies| == 1)
    && (!nofifo && slot.used ==> Counted(slot.size, i.count, i.replies) && slot.size >= i.count)
  }

  /** Every byte is that of the last reply that reached it, or the slot's old one. */
  predicate HoldsBytes(slot: Slot, i: Inputs) {
    forall j :: 0 <= j < 14 ==> slot.data[j] == LastByte(i.replies, j, i.before.data[j])
  }

  lemma HoldsOneMore(slot: Slot, i: Inputs, r: Reply)
    requires HoldsBytes(slot, i)
    ensures var data := Filled(slot.data, r);
            forall j :: 0 <= j < 14 ==> data[j] == LastByte(i.replies + [r], j, i.before.data[j])
  {
    assert (i.replies + [r])[..|i.replies|] == i.replies;
  }

  predicate Counted(size: int, want: int, replies: seq<Reply>) {
    && want > 0 && Succeeded(replies) && size == Total(replies)
    && (Bounded(replies, want) ==> size < 2 * want)
  }

  function Begun(i: Inputs): Slot {
    i.before.(used := true, size := 0, timestamp := i.now)
  }

  predicate DrainedTo(slot: Slot, i: Inputs) {
    var d := Drain(Begun(i), i.count, i.replies);
    && d.slot == slot && !d.Failed? && (d.Complete? <==> slot.size >= i.count)
    && slot.used && Counted(slot.size, i.count, i.replies) && HoldsBytes(slot, i)
  }

  /** Where the producer's run under way stands, given what it has read. */
  predicate UnderWay(pc: ProducerPc, slot: Slot, nofifo: bool, i: Inputs) {
    match pc
    case Idle => true
    case Advance => true
    case MarkUsed => slot == i.before && i.replies == []
    case ClearSize => slot == i.before.(used := true) && i.replies == []
    case Stamp => slot == i.before.(used := true, size := 0) && i.replies == []
    case Count => !nofifo && slot == Begun(i) && i.replies == []
    case ReadRegisters => nofifo && slot == Begun(i) && i.replies == []
    case AtLoop(want) => !nofifo && want == i.count && DrainedTo(slot, i)
    case AtDispatch(want) => !nofifo && want == i.count && DrainedTo(slot, i)
    case CleanUp => !nofifo && HoldsBytes(slot, i) && Sample(i.before, i.now, nofifo, i.count, i.replies) == Finished(slot.(used := false))
    case Release => Sampled(slot, nofifo, i)
  }

  predicate Traced(w: Watch) {
    var s := w.state;
    && Inv(s)
    && (s.producer != Idle && s.producer != Advance ==> s.pos != -1)
    && UnderWay(s.producer, Current(s), s.nofifo, w.current)
    && |w.done| == |s.runs|
    && forall j :: 0 <= j < |s.runs| ==> Sampled(s.runs[j], s.nofifo, w.done[j])
  }

  lemma ProducerStaysUnderWay(s: State, now: int, count: int, reply: Reply, i: Inputs)
    requires s.producer != Idle && s.producer != Release && (s.producer != Advance ==> s.pos != -1)
    requires UnderWay(s.producer, Current(s), s.nofifo, i)
    ensures var s' := ProducerStep(s, now, count, reply);
            && s'.pos != -1 && s'.runs == s.runs && s'.nofifo == s.nofifo
            && UnderWay(s'.producer, Current(s'), s.nofifo, Note(s, now, count, reply, i))
  {
    hide Sampled, DrainedTo;
    match s.producer
    case AtLoop(_) => LoopStaysUnderWay(s, now, count, reply, i);
    case AtDispatch(_) => DispatchStaysUnderWay(s, i);
    case Count => CountStaysUnderWay(s, now, count, reply, i);
    case ReadRegisters => RegistersStayUnderWay(s, reply, i);
    case CleanUp => UnusedIsSampled(Current(s).(used := false), s.nofifo, i);
    case _ =>
  }

  lemma UnusedIsSampled(slot: Slot, nofifo: bool, i: Inputs)
    requires !slot.used && !nofifo && HoldsBytes(slot, i) && Sample(i.before, i.now, nofifo, i.count, i.replies) == Finished(slot)
    ensures Sampled(slot, nofifo, i)
  {
  }

  lemma CountStaysUnderWay(s: State, now: int, count: int, reply: Reply, i: Inputs)
    requires s.producer == Count && s.pos != -1 && UnderWay(s.producer, Current(s), s.nofifo, i)
    ensures var s' := ProducerStep(s, now, count, reply);
            UnderWay(s'.producer, Current(s'), s.nofifo, i.(count := count))
  {
    assert Begun(i.(count := count)) == Begun(i);
  }

  lemma RegistersStayUnderWay(s: State, reply: Reply, i: Inputs)
    requires s.producer == ReadRegisters && s.pos != -1 && UnderWay(s.producer, Current(s), s.nofifo, i)
    ensures var slot := Begun(i).(data := Filled(i.before.data, reply), size := reply.result);
            Sampled(slot, true, i.(replies := i.replies + [reply]))
  {
    assert i.replies + [reply] == [reply] && [reply][1..] == [];
    HoldsOneMore(Begun(i), i, reply);
    assert Total([reply]) == reply.result + Total([]);
  }

  lemma DispatchStaysUnderWay(s: State, i: Inputs)
    requires s.producer.AtDispatch? && s.pos != -1 && UnderWay(s.producer, Current(s), s.nofifo, i)
    ensures Current(s).size >= i.count ==> Sampled(Current(s), s.nofifo, i)
  {
    var d := Drain(Begun(i), i.count, i.replies);
    assert i.before.(used := true, size := 0, timestamp := i.now) == Begun(i);
  }

  lemma LoopStaysUnderWay(s: State, now: int, count: int, reply: Reply, i: Inputs)
    requires s.producer.AtLoop? && s.pos != -1 && UnderWay(s.producer, Current(s), s.nofifo, i)
    ensures var s' := ProducerStep(s, now, count, reply);
            UnderWay(s'.producer, Current(s'), s.nofifo, Note(s, now, count, reply, i))
  {
    var slot := Current(s);
    if slot.size < i.count {
      var i' := i.(replies := i.replies + [reply]);
      assert Begun(i') == Begun(i);
      DrainGoesOn(Begun(i), i.count, i.replies, reply);
      HoldsOneMore(slot, i, reply);
      if reply.result >= 0 {
        CountedOneMore(slot.size, i.count, i.replies, reply);
      } else {
        var d := Drain(Begun(i'), i'.count, i'.replies);
        assert d.Failed? && d.slot == slot;
      }
      if reply.result < 0 {
        FailedReplyHolds(slot, i, reply);
      }
      hide Drain, Counted, LastByte;
    }
  }

  lemma FailedReplyHolds(slot: Slot, i: Inputs, r: Reply)
    requires HoldsBytes(slot, i) && r.result < 0
    ensures HoldsBytes(slot, i.(replies := i.replies + [r]))
  {
    assert (i.replies + [r])[..|i.replies|] == i.replies;
  }

  lemma CountedOneMore(size: int, want: int, replies: seq<Reply>, r: Reply)
    requires Counted(size, want, replies) && size < want && r.result >= 0
    ensures Counted(size + r.result, want, replies + [r])
  {
    TotalAppend(replies, r);
    assert r in replies + [r];
    assert forall q :: q in replies ==> q in replies + [r];
  }

  lemma OthersLeaveRunAlone(s: State, step: Step)
    requires Inv(s) && !step.Produce?
    ensures var s' := Apply(s, step);
            && s'.producer == s.producer && s'.pos == s.pos && s'.runs == s.runs && s'.nofifo == s.nofifo
            && (s.producer != Idle ==> s'.ring == s.ring)
  {
    hide RingInv, CopyInv, LogInv, SenderMove;
  }

  lemma ObserveKeepsTraced(w: Watch, step: Step)
    requires Traced(w)
    ensures Traced(Observe(w, step))
  {
    var s := w.state;
    StepKeepsInv(s, step);
    if !step.Produce? {
      OthersLeaveRunAlone(s, step);
    } else if s.producer == Release {
    } else if s.producer != Idle {
      ProducerStaysUnderWay(s, step.now, step.count, step.reply, w.current);
    }
    hide Inv, Sampled, UnderWay, Note, RingInv;
  }

  lemma {:induction false} ObservingKeepsTraced(w: Watch, steps: seq<Step>)
    requires Traced(w)
    ensures Traced(ObserveAll(w, steps))
    decreases |steps|
  {
    if steps != [] {
      ObserveKeepsTraced(w, steps[0]);
      hide Observe, Traced;
      ObservingKeepsTraced(Observe(w, steps[0]), steps[1..]);
    }
  }

  /** In every interleaving, what a run leaves in its slot is the specified sample of what it read. */
  lemma EveryRunIsASample(nofifo: bool, steps: seq<Step>)
    ensures var w := ObserveAll(Begin(nofifo), steps);
            && w.state == Run(Initial(nofifo), steps) && |w.done| == |w.state.runs|
            && forall j :: 0 <= j < |w.done| ==> Sampled(w.state.runs[j], nofifo, w.done[j])
  {
    InitialInv(nofifo);
    ObservingKeepsTraced(Begin(nofifo), steps);
    ObservingChangesNothing(Begin(nofifo), steps);
    NoFifoStays(nofifo, steps);
    hide ObserveAll, Run, Sampled, UnderWay, Inv;
  }

  lemma NoFifoStays(nofifo: bool, steps: seq<Step>)
    ensures Run(Initial(nofifo), steps).nofifo == nofifo
  {
    RunKeepsMode(Initial(nofifo), steps);
  }

  lemma {:induction false} RunKeepsMode(s: State, steps: seq<Step>)
    ensures Run(s, steps).nofifo == s.nofifo
    decreases |steps|
  {
    if steps != [] {
      RunKeepsMode(Apply(s, steps[0]), steps[1..]);
      hide ProducerStep, ClearStep, SenderMove;
    }
  }

  // ----- The size of a record -----------------------------------------------------------------

  /** In every interleaving the size of a record is the sum of the replies that its run read. So the reads
      succeeded exactly if the size is not negative, as it always is from the FIFO, and the size is
      that of a whole record, 1 to 14, exactly if successful replies add up to 1 to 14. */
  lemma SizeTellsReplies(nofifo: bool, steps: seq<Step>, k: nat)
    requires k < |Run(Initial(nofifo), steps).sent|
    ensures var w := ObserveAll(Begin(nofifo), steps);
            var r := Run(Initial(nofifo), steps).sent[k];
            && 0 < r.completed <= |w.done|
            && var i := w.done[r.completed - 1];
               && r.size == Total(i.replies)
               && (Succeeded(i.replies) <==> r.size >= 0)
               && (1 <= r.size <= 14 <==> Succeeded(i.replies) && 1 <= Total(i.replies) <= 14)
               && (nofifo ==> |i.replies| == 1 && r.size == i.replies[0].result <= 14)
               && (!nofifo ==> Succeeded(i.replies) && 0 < i.count <= r.size)
               && (!nofifo && Bounded(i.replies, i.count) ==> r.size < 2 * i.count)
               && (!nofifo && Bounded(i.replies, i.count) && i.count <= 7 ==> 1 <= r.size <= 14)
  {
    hide Run, ObserveAll;
    EveryRunIsASample(nofifo, steps);
    EveryRecordIsTheNewestRun(nofifo, steps);
    var s := Run(Initial(nofifo), steps);
    var r := s.sent[k];
    assert r in s.sent;
    var n := r.completed;
    assert s.runs[..n][n - 1] == s.runs[n - 1];
    SampledSize(s.runs[n - 1], nofifo, ObserveAll(Begin(nofifo), steps).done[n - 1]);
  }

  lemma SampledSize(slot: Slot, nofifo: bool, i: Inputs)
    requires Sampled(slot, nofifo, i) && slot.used
    ensures slot.size == Total(i.replies) && (Succeeded(i.replies) <==> slot.size >= 0)
    ensures nofifo ==> |i.replies| == 1 && slot.size == i.replies[0].result
    ensures !nofifo ==> Counted(slot.size, i.count, i.replies) && slot.size >= i.count
  {
    if nofifo {
      assert i.replies == [i.replies[0]] && i.replies[1..] == [];
      assert Total(i.replies) == i.replies[0].result + Total([]);
      assert i.replies[0] in i.replies;
    }
  }

  /** In every interleaving every byte of a record is that of the last reply of its run that reached it,
      or, if none did, what its slot held before. */
  lemma RecordHoldsReplies(nofifo: bool, steps: seq<Step>, k: nat)
    requires k < |Run(Initial(nofifo), steps).sent|
    ensures var w := ObserveAll(Begin(nofifo), steps);
            var r := Run(Initial(nofifo), steps).sent[k];
            && 0 < r.completed <= |w.done|
            && var i := w.done[r.completed - 1];
               && (forall j :: 0 <= j < 14 ==> r.data[j] == LastByte(i.replies, j, i.before.data[j]))
               && (|i.replies| == 1 && |i.replies[0].bytes| == 14 ==> r.data == i.replies[0].bytes)
  {
    hide Run, ObserveAll;
    EveryRunIsASample(nofifo, steps);
    EveryRecordIsTheNewestRun(nofifo, steps);
    var s := Run(Initial(nofifo), steps);
    var r := s.sent[k];
    assert r in s.sent;
    var n := r.completed;
    assert s.runs[..n][n - 1] == s.runs[n - 1];
    var i := ObserveAll(Begin(nofifo), steps).done[n - 1];
    assert HoldsBytes(s.runs[n - 1], i);
  }

  /** So a run that reads a whole sample in one reply sends the device's readings: to the viewer all
      seven, to netlink listeners all but the temperature, whose bytes are exchanged. */
  lemma WholeSampleArrives(nofifo: bool, steps: seq<Step>, k: nat, readings: Readout.Readings)
    requires k < |Run(Initial(nofifo), steps).sent|
    requires var w := ObserveAll(Begin(nofifo), steps);
             var r := Run(Initial(nofifo), steps).sent[k];
             0 < r.completed <= |w.done| ==>
               var i := w.done[r.completed - 1];
               |i.replies| == 1 && i.replies[0].bytes == Readout.Encode(readings)
    ensures var r := Run(Initial(nofifo), steps).sent[k];
            && Readout.ViewerExtract(r.data) == readings
            && Readout.Extract(r.data) == readings.(temp := Readout.Swapped(readings.temp))
  {
    RecordHoldsReplies(nofifo, steps, k);
    Readout.ExtractUndoesEncode(readings);
    hide Run, ObserveAll;
  }

  // ----- Records that are no whole samples ----------------------------------------------------

  /** A sender's own steps from its check of signals to the next one, all the way through. */
  function Round(id: Id, delivered: bool): seq<Step> {
    var a := Send(id, Ready, delivered);
    [a, a, a] + ([a, a, a] + [a, a])
  }

  /** What a sender's round comes to on a free lock: a slot in use is sent if delivery succeeds, and
      the sender is back at its check with the lock free. */
  lemma RoundSends(s: State, id: Id, delivered: bool)
    requires s.lock == Free && s.pos != -1 && s.ring[s.pos].used
    requires Get(s, id).pc == Check && !Get(s, id).signalled
    ensures var slot := s.ring[s.pos];
            var r := Record(id, slot.data, slot.size, |s.runs|, s.cleared);
            Run(s, Round(id, delivered)) == s.(sent := if delivered then s.sent + [r] else s.sent)
  {
    var a, slot, t := Send(id, Ready, delivered), s.ring[s.pos], Get(s, id);
    var r := Record(id, slot.data, slot.size, |s.runs|, s.cleared);
    TestedByThree(s, id, delivered);
    var s3 := Put(s, id, t.(pc := TakeData(s.pos))).(lock := BySender(id));
    SentByThree(s3, id, delivered, slot);
    var s6 := Put(s, id, t.(pc := ReleaseSleep)).(lock := BySender(id), sent := if delivered then s.sent + [r] else s.sent);
    DoneByTwo(s6, id, delivered);
    hide Apply, Run;
    ThreeSteps(s, a, a, a);
    ThreeSteps(s3, a, a, a);
    TwoSteps(s6, a, a);
    RunInParts(s, [a, a, a], [a, a, a] + [a, a]);
    RunInParts(s3, [a, a, a], [a, a]);
    assert Put(s, id, t) == s;
  }

  lemma TestedByThree(s: State, id: Id, delivered: bool)
    requires s.lock == Free && s.pos != -1 && s.ring[s.pos].used
    requires Get(s, id).pc == Check && !Get(s, id).signalled
    ensures var a := Send(id, Ready, delivered);
            Apply(Apply(Apply(s, a), a), a)
            == Put(s, id, Get(s, id).(pc := TakeData(s.pos))).(lock := BySender(id))
  {
    hide ProducerStep, ClearStep, ShutdownStep;
  }

  lemma DoneByTwo(s: State, id: Id, delivered: bool)
    requires s.lock == BySender(id) && Get(s, id).pc == ReleaseSleep
    ensures var a := Send(id, Ready, delivered);
            Apply(Apply(s, a), a) == Put(s, id, Get(s, id).(pc := Check)).(lock := Free)
  {
    hide ProducerStep, ClearStep, ShutdownStep;
  }

  lemma SentByThree(s: State, id: Id, delivered: bool, slot: Slot)
    requires s.lock == BySender(id) && s.pos != -1 && Get(s, id).pc == TakeData(s.pos) && slot == s.ring[s.pos]
    ensures var a, r := Send(id, Ready, delivered), Record(id, slot.data, slot.size, |s.runs|, s.cleared);
            Apply(Apply(Apply(s, a), a), a)
            == Put(s, id, Get(s, id).(pc := ReleaseSleep)).(sent := if delivered then s.sent + [r] else s.sent)
  {
    hide ProducerStep, ClearStep, ShutdownStep;
  }

  /** Whichever sender it is: in every reachable state in which it checks for signals and has none, with
      the lock free and news in the ring, its own steps send exactly the newest run, once, and it is
      back at its check with the lock free, ready to send the next. */
  lemma EverySenderSends(nofifo: bool, steps: seq<Step>, id: Id)
    requires var s := Run(Initial(nofifo), steps);
             && Get(s, id).pc == Check && !Get(s, id).signalled && s.lock == Free && HasNews(s.runs, s.cleared)
    ensures var s := Run(Initial(nofifo), steps);
            var newest := s.runs[|s.runs| - 1];
            Run(s, Round(id, true))
            == s.(sent := s.sent + [Record(id, newest.data, newest.size, |s.runs|, s.cleared)])
  {
    NewsIsSeen(nofifo, steps);
    var s := Run(Initial(nofifo), steps);
    RoundSends(s, id, true);
    hide Run;
  }

  /** And without news, or without delivery, the same steps send nothing and change nothing. */
  lemma NoNewsIsNotSent(nofifo: bool, steps: seq<Step>, id: Id)
    requires var s := Run(Initial(nofifo), steps);
             Get(s, id).pc == Check && !Get(s, id).signalled && s.lock == Free
    ensures var s, a := Run(Initial(nofifo), steps), Send(id, Ready, true);
            && (!HasNews(s.runs, s.cleared) ==> Run(s, [a, a] + [a, a]) == s)
            && (HasNews(s.runs, s.cleared) ==> Run(s, Round(id, false)) == s)
  {
    NewsIsSeen(nofifo, steps);
    var s, a := Run(Initial(nofifo), steps), Send(id, Ready, true);
    if HasNews(s.runs, s.cleared) {
      RoundSends(s, id, false);
    } else {
      IdleRound(s, id);
    }
    hide Run;
  }

  lemma IdleRound(s: State, id: Id)
    requires s.lock == Free && (s.pos == -1 || !s.ring[s.pos].used)
    requires Get(s, id).pc == Check && !Get(s, id).signalled
    ensures var a := Send(id, Ready, true); Run(s, [a, a] + [a, a]) == s
  {
    hide ProducerStep, ClearStep, ShutdownStep;
    var a, t := Send(id, Ready, true), Get(s, id);
    TwoSteps(s, a, a);
    var s2 := Run(s, [a, a]);
    assert s2 == Put(s, id, t.(pc := Test)).(lock := BySender(id));
    TwoSteps(s2, a, a);
    RunInParts(s, [a, a], [a, a]);
    hide Run;
    assert Put(s, id, t) == s;
  }

  /** With the lock free, what a sender sees in the ring is the news. */
  lemma NewsIsSeen(nofifo: bool, steps: seq<Step>)
    requires Run(Initial(nofifo), steps).lock == Free
    ensures var s := Run(Initial(nofifo), steps);
            && ((s.pos != -1 && s.ring[s.pos].used) <==> HasNews(s.runs, s.cleared))
            && (HasNews(s.runs, s.cleared) ==> s.ring[s.pos] == s.runs[|s.runs| - 1])
  {
    InitialInv(nofifo);
    RunKeepsInv(Initial(nofifo), steps);
    RingRefinesHistory(nofifo, steps);
    var s := Run(Initial(nofifo), steps);
    SenderTestIsHasNews(s.ring, s.pos, s.runs, s.cleared);
    hide Run;
  }

  /** How a thread starts: it comes to its check, running, if it can allow its signal and, for the UDP
      thread, create its socket; without a socket that thread leaves in order, and a thread that cannot
      allow its signal returns with running set. */
  lemma ThreadStarts(s: State, id: Id, answer: Answer)
    requires Get(s, id).pc == Unstarted && !Get(s, id).running
    ensures var a, t := Send(id, answer, true), Get(s, id);
            Run(s, [a, a, a])
            == Put(s, id, if answer == NoSignals then t.(pc := Aborted, running := true)
                          else if answer == NoSocket && id == Udp then t.(pc := Gone, running := false)
                          else if t.signalled then t.(pc := Leave, running := true)
                          else t.(pc := Acquire, running := true))
  {
    hide ProducerStep, ClearStep, ShutdownStep;
    ThreeSteps(s, Send(id, answer, true), Send(id, answer, true), Send(id, answer, true));
    hide Run;
  }

  /** A thread that starts comes to its check, running, if its set-up succeeds. */
  lemma StartedThreadChecks(s: State, id: Id)
    requires Get(s, id).pc == Unstarted && !Get(s, id).running
    ensures var a := Send(id, Ready, true);
            Run(s, [a, a]) == Put(s, id, Get(s, id).(pc := Check, running := true))
  {
    TwoSteps(s, Send(id, Ready, true), Send(id, Ready, true));
  }

  /** The steps of one whole run on an idle driver, and then of a sender. */
  function SampleAndSend(id: Id, nofifo: bool, count: int, replies: seq<Reply>): seq<Step> {
    var a := Send(id, Ready, true);
    SampleSteps(Initial(nofifo).ring[0], 0, nofifo, count, replies) + ([a, a] + Round(id, true))
  }

  /** Every sample that leaves its slot in use is sent as it is, by either sender. */
  lemma SampleIsSent(id: Id, nofifo: bool, count: int, replies: seq<Reply>)
    requires var r := Sample(Initial(nofifo).ring[0], 0, nofifo, count, replies); r.Finished? && r.slot.used
    ensures var slot := Sample(Initial(nofifo).ring[0], 0, nofifo, count, replies).slot;
            Run(Initial(nofifo), SampleAndSend(id, nofifo, count, replies)).sent
            == [Record(id, slot.data, slot.size, 1, 0)]
  {
    var a, s := Send(id, Ready, true), Initial(nofifo);
    var r := Sample(s.ring[0], 0, nofifo, count, replies);
    ProducerStepsSample(s, 0, count, replies);
    var t := Run(s, SampleSteps(s.ring[0], 0, nofifo, count, replies));
    assert t == Published(s.(pos := 0), r.slot);
    StartedThreadChecks(t, id);
    var u := Run(t, [a, a]);
    RoundSends(u, id, true);
    hide Run, Sample, SampleSteps, Round;
    RunInParts(t, [a, a], Round(id, true));
    RunInParts(s, SampleSteps(s.ring[0], 0, nofifo, count, replies), [a, a] + Round(id, true));
  }

  /** In register mode whatever the read returns is sent as the size: -5 for instance. */
  lemma FailedReadIsSent(id: Id, error: int)
    requires error < 0
    ensures var s := Run(Initial(true), SampleAndSend(id, true, 0, [BlockRead(error, [])]));
            |s.sent| == 1 && s.sent[0].size == error
  {
    SampleIsSent(id, true, 0, [BlockRead(error, [])]);
    hide Run;
  }

  /** Replies that bring at least a byte each, and no more than was asked for. */
  predicate Plausible(replies: seq<Reply>, count: int) {
    forall r :: r in replies ==> 1 <= r.result <= count
  }

  /** A run from the FIFO that leaves more than a slot holds in use. */
  predicate Oversized(count: int, replies: seq<Reply>) {
    var r := Sample(Initial(false).ring[0], 0, false, count, replies);
    r.Finished? && r.slot.used && r.slot.size > 14
  }

  /** With plausible replies a record of more than 14 bytes is possible if and only if the device's count
      is at least 8; whenever it is, it is sent. */
  lemma OversizedRecordExactly(id: Id, count: nat)
    requires count <= 14
    ensures (exists replies :: Plausible(replies, count) && Oversized(count, replies)) <==> count >= 8
    ensures forall replies :: Oversized(count, replies) ==>
              var s := Run(Initial(false), SampleAndSend(id, false, count, replies));
              |s.sent| == 1 && s.sent[0].size > 14
  {
    forall replies | Plausible(replies, count) && Oversized(count, replies)
      ensures count >= 8
    {
      DrainBelowTwice(Initial(false).ring[0].(used := true, size := 0, timestamp := 0), count, replies);
    }
    if count >= 8 {
      var replies := LargestReplies(count);
    }
    forall replies | Oversized(count, replies)
      ensures var s := Run(Initial(false), SampleAndSend(id, false, count, replies));
              |s.sent| == 1 && s.sent[0].size > 14
    {
      SampleIsSent(id, false, count, replies);
      hide Run;
    }
  }

  /** A reply of all but one of the bytes, and then one of all of them. */
  lemma LargestReplies(count: nat) returns (replies: seq<Reply>)
    requires 8 <= count <= 14
    ensures Plausible(replies, count) && Oversized(count, replies)
  {
    var bytes := seq(count, _ => 0);
    var first: Reply := BlockRead(count - 1, bytes[1..]);
    var second: Reply := BlockRead(count, bytes);
    replies := [first, second];
    var begun := Initial(false).ring[0].(used := true, size := 0, timestamp := 0);
    assert replies[1..] == [second] && [second][1..] == [];
    var once := Take(begun, first);
    assert Drain(once, count, [second]) == OneMore(Drain(Take(once, second), count, []));
    assert Drain(begun, count, replies) == OneMore(Drain(once, count, [second]));
  }

  lemma {:induction false} DrainBelowTwice(slot: Slot, want: int, replies: seq<Reply>)
    requires slot.size < 2 * want && Plausible(replies, want)
    ensures Drain(slot, want, replies).slot.size < 2 * want
    decreases |replies|
  {
    if slot.size < want && replies != [] {
      assert replies[0] in replies;
      DrainBelowTwice(Take(slot, replies[0]), want, replies[1..]);
    }
  }

  /** Two reads of 13 bytes for a count of 14 make a record of 26 bytes, of which its slot holds 14. */
  lemma OversizedRecordIsSent(id: Id, bytes: seq<byte>)
    requires |bytes| == 13
    ensures var s := Run(Initial(false), SampleAndSend(id, false, 14, [BlockRead(13, bytes), BlockRead(13, bytes)]));
            |s.sent| == 1 && s.sent[0].size == 26
  {
    var r: Reply := BlockRead(13, bytes);
    var begun := Initial(false).ring[0].(used := true, size := 0, timestamp := 0);
    assert [r, r][1..] == [r] && [r][1..] == [];
    var first := Take(begun, r);
    assert Drain(first, 14, [r]) == OneMore(Drain(Take(first, r), 14, []));
    assert Drain(begun, 14, [r, r]) == OneMore(Drain(first, 14, [r]));
    SampleIsSent(id, false, 14, [r, r]);
    hide Run;
  }
}
