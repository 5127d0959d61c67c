/**
 handler.go: the bounded queue, its single writer and the calls that wait for it, one atomic step per
 channel operation. The state keeps the history needed to say what was accepted and what was handed over.
 */
module LogWriter {
  import opened Collections
  import opened Schema

  const QueueSize := 1024
  const MaxBatchSize := 50

  datatype Entry = Entry(id: Id, message: string)

  /** Where the writer is: at its select, draining for a flush call or for the shutdown, or gone. */
  datatype Phase = Selecting | DrainingFlush(call: nat) | DrainingClose | Stopped

  /** What happened to a call of Flush; mark counts the entries accepted before it. */
  datatype Progress = Waiting | Taken | Acked | Skipped

  datatype FlushCall = FlushCall(mark: nat, progress: Progress)

  /** A call of Close; late when the writer had already gone. */
  datatype CloseCall = CloseCall(mark: nat, late: bool)

  datatype Batch = Batch(entries: seq<Entry>, drained: bool)

  datatype State = State(
    enabled: bool, accepted: seq<Entry>, queue: seq<Entry>, batch: seq<Entry>, handed: seq<Batch>,
    phase: Phase, closing: bool, flushes: seq<FlushCall>, closes: seq<CloseCall>)

  const Started: State := State(true, [], [], [], [], Selecting, false, [], [])

  // --------------------------------------------------------------- the steps

  function HandOver(s: State, drained: bool): State
  {
    if s.batch == [] then s
    else s.(handed := s.handed + [Batch(s.batch, drained)], batch := [])
  }

  /** Non-blocking send: a full queue drops the entry. */
  function Enqueue(s: State, e: Entry): State
  {
    if !s.enabled || |s.queue| >= QueueSize then s
    else s.(queue := s.queue + [e], accepted := s.accepted + [e])
  }

  function Receive(s: State): State
  {
    if !s.phase.Selecting? || s.queue == [] then s
    else
      var taken := s.(queue := s.queue[1..], batch := s.batch + [s.queue[0]]);
      if |taken.batch| >= MaxBatchSize then HandOver(taken, false) else taken
  }

  function Tick(s: State): State
  {
    if s.phase.Selecting? then HandOver(s, false) else s
  }

  function CallFlush(s: State): State
  {
    s.(flushes := s.flushes + [FlushCall(|s.accepted|, Waiting)])
  }

  function Marked(calls: seq<FlushCall>, i: nat, progress: Progress): seq<FlushCall>
    requires i < |calls|
  {
    calls[i := calls[i].(progress := progress)]
  }

  /** The writer receives a waiting flush call. */
  function TakeFlush(s: State, i: nat): State
  {
    if !s.phase.Selecting? || i >= |s.flushes| || !s.flushes[i].progress.Waiting? then s
    else s.(phase := DrainingFlush(i), flushes := Marked(s.flushes, i, Taken))
  }

  /** A flush call whose writer is gone returns without an acknowledgement. */
  function SkipFlush(s: State, i: nat): State
  {
    if !s.phase.Stopped? || i >= |s.flushes| || !s.flushes[i].progress.Waiting? then s
    else s.(flushes := Marked(s.flushes, i, Skipped))
  }

  function CallClose(s: State): State
  {
    s.(closing := true, closes := s.closes + [CloseCall(|s.accepted|, s.phase.Stopped?)])
  }

  function TakeClose(s: State): State
  {
    if s.phase.Selecting? && s.closing then s.(phase := DrainingClose) else s
  }

  predicate Draining(phase: Phase)
  {
    phase.DrainingFlush? || phase.DrainingClose?
  }

  /** One round of the drain loop: the next entry, or the hand-over once the queue is empty. */
  function Drain(s: State): State
  {
    if !Draining(s.phase) then s
    else if s.queue != [] then s.(queue := s.queue[1..], batch := s.batch + [s.queue[0]])
    else
      var flushed := HandOver(s, true);
      match s.phase
      case DrainingFlush(i) =>
        if i < |s.flushes| then flushed.(phase := Selecting, flushes := Marked(s.flushes, i, Acked))
        else flushed.(phase := Selecting)
      case _ => flushed.(phase := Stopped)
  }

  datatype Action =
    | Handle(entry: Entry)
    | SetEnabled(enabled: bool)
    | ReceiveEntry
    | TickerFires
    | FlushCalled
    | FlushTaken(call: nat)
    | FlushSkipped(call: nat)
    | CloseCalled
    | CloseTaken
    | DrainRound

  function Step(s: State, a: Action): State
  {
    match a
    case Handle(e) => Enqueue(s, e)
    case SetEnabled(b) => s.(enabled := b)
    case ReceiveEntry => Receive(s)
    case TickerFires => Tick(s)
    case FlushCalled => CallFlush(s)
    case FlushTaken(i) => TakeFlush(s, i)
    case FlushSkipped(i) => SkipFlush(s, i)
    case CloseCalled => CallClose(s)
    case CloseTaken => TakeClose(s)
    case DrainRound => Drain(s)
  }

  // ------------------------------------------------------------- the writer

  /** The handler with its writer goroutine, one method for each step of a caller or of the writer. */
  class Writer {
    var enabled: bool
    var queue: seq<Entry>
    var batch: seq<Entry>
    var handed: seq<Batch>
    var phase: Phase
    var closing: bool
    ghost var accepted: seq<Entry>
    ghost var flushes: seq<FlushCall>
    ghost var closes: seq<CloseCall>

    constructor ()
      ensures View() == Started
    {
      enabled, queue, batch, handed, phase, closing := true, [], [], [], Selecting, false;
      accepted, flushes, closes := [], [], [];
    }

    ghost function View(): State
      reads this
    {
      State(enabled, accepted, queue, batch, handed, phase, closing, flushes, closes)
    }

    method Handle(e: Entry) returns (enqueued: bool)
      modifies this
      ensures View() == Step(old(View()), Action.Handle(e))
      ensures enqueued <==> accepted == old(accepted) + [e]
    {
      enqueued := false;
      if !enabled {
        return;
      }
      if |queue| < QueueSize {
        queue := queue + [e];
        accepted := accepted + [e];
        enqueued := true;
      }
    }

    method FlushBatch(drained: bool)
      modifies this`batch, this`handed
      ensures View() == HandOver(old(View()), drained) && batch == []
    {
      if |batch| > 0 {
        handed := handed + [Batch(batch, drained)];
        batch := [];
      }
    }

    /** The select case of an entry: a full batch is handed over. */
    method ReceiveNext()
      requires phase.Selecting? && queue != []
      modifies this
      ensures View() == Step(old(View()), ReceiveEntry)
    {
      batch := batch + [queue[0]];
      queue := queue[1..];
      if |batch| >= MaxBatchSize {
        FlushBatch(false);
      }
    }

    method TickNow()
      requires phase.Selecting?
      modifies this
      ensures View() == Step(old(View()), TickerFires)
    {
      FlushBatch(false);
    }

    method BeginFlush()
      modifies this
      ensures View() == Step(old(View()), FlushCalled)
    {
      flushes := flushes + [FlushCall(|accepted|, Waiting)];
    }

    /** The channel operation of a waiting Flush: the writer receives it, or the call sees it has stopped. */
    method MeetFlush(i: nat)
      requires i < |flushes| && flushes[i].progress.Waiting? && (phase.Selecting? || phase.Stopped?)
      modifies this
      ensures View() == Step(old(View()), if old(phase).Selecting? then FlushTaken(i) else FlushSkipped(i))
    {
      if phase.Selecting? {
        phase := DrainingFlush(i);
        flushes := Marked(flushes, i, Taken);
      } else {
        flushes := Marked(flushes, i, Skipped);
      }
    }

    method BeginClose()
      modifies this
      ensures View() == Step(old(View()), CloseCalled)
    {
      closing := true;
      closes := closes + [CloseCall(|accepted|, phase.Stopped?)];
    }

    method MeetClose()
      requires phase.Selecting? && closing
      modifies this
      ensures View() == Step(old(View()), CloseTaken)
    {
      phase := DrainingClose;
    }

    /** One round of a drain loop; producers may enqueue between two rounds. */
    method DrainNext()
      requires Draining(phase) && (phase.DrainingFlush? ==> phase.call < |flushes|)
      modifies this
      ensures View() == Step(old(View()), DrainRound)
    {
      if |queue| > 0 {
        batch := batch + [queue[0]];
        queue := queue[1..];
        return;
      }
      FlushBatch(true);
      if phase.DrainingFlush? {
        flushes := Marked(flushes, phase.call, Acked);
        phase := Selecting;
      } else {
        phase := Stopped;
      }
    }

    /** A drain loop that no producer interrupts. */
    method DrainAll()
      requires Draining(phase) && (phase.DrainingFlush? ==> phase.call < |flushes|)
      modifies this
      ensures View() == Rounds(old(View()), |old(queue)| + 1)
    {
      ghost var n := 0;
      ghost var before := View();
      while |queue| > 0
        invariant n + |queue| == |before.queue| && phase == before.phase && flushes == before.flushes
        invariant View() == Rounds(before, n)
        decreases |queue|
      {
        DrainNext();
        n := n + 1;
        RoundsTake(before, n);
      }
      DrainNext();
    }
  }

  lemma HandedFlat(s: State, drained: bool)
    ensures Flat(HandOver(s, drained).handed) == Flat(s.handed) + s.batch
  {
    if s.batch != [] {
      assert (s.handed + [Batch(s.batch, drained)])[..|s.handed|] == s.handed;
    } else {
      assert Flat(s.handed) + [] == Flat(s.handed);
    }
  }

  /** Some rounds of the drain loop on their own. */
  function Rounds(s: State, n: nat): State
  {
    if n == 0 then s else Drain(Rounds(s, n - 1))
  }

  /** Each round takes the next entry while there is one. */
  lemma {:induction false} RoundsTake(s: State, n: nat)
    requires Draining(s.phase) && n <= |s.queue|
    ensures Rounds(s, n) == s.(queue := s.queue[n..], batch := s.batch + s.queue[..n])
  {
    if n == 0 {
      assert s.queue[0..] == s.queue && s.batch + s.queue[..0] == s.batch;
    } else {
      RoundsTake(s, n - 1);
      assert s.queue[..n] == s.queue[..n - 1] + [s.queue[n - 1]];
    }
  }

  lemma DrainEnds(s: State)
    requires Draining(s.phase) && s.queue == []
    ensures var after := Drain(s);
            && after.queue == [] && after.batch == [] && !Draining(after.phase)
            && Flat(after.handed) == Flat(s.handed) + s.batch
  {
    HandedFlat(s, true);
  }

  /** The uninterrupted loop hands over the batch and everything queued, and leaves the drain. */
  lemma DrainedAll(s: State)
    requires Draining(s.phase)
    ensures var after := Rounds(s, |s.queue| + 1);
            && after.queue == [] && after.batch == [] && !Draining(after.phase)
            && Flat(after.handed) == Flat(s.handed) + s.batch + s.queue
  {
    var n := |s.queue|;
    var last := Rounds(s, n);
    RoundsTake(s, n);
    assert s.queue[..n] == s.queue && s.queue[n..] == [];
    DrainEnds(last);
    assert Flat(s.handed) + (s.batch + s.queue) == Flat(s.handed) + s.batch + s.queue;
  }

  // ----------------------------------------------------------- the invariant

  function Flat(batches: seq<Batch>): seq<Entry>
  {
    if batches == [] then [] else Flat(batches[..|batches| - 1]) + batches[|batches| - 1].entries
  }

  predicate FlushOk(c: FlushCall, accepted: nat, handed: nat)
  {
    c.mark <= accepted && (c.progress.Acked? ==> c.mark <= handed)
  }

  predicate CloseOk(c: CloseCall, accepted: nat, handed: nat, stopped: bool)
  {
    c.mark <= accepted && (stopped && !c.late ==> c.mark <= handed)
  }

  /** Every call that has returned, with an acknowledgement or at the shutdown, was served in full. */
  ghost predicate Served(flushes: seq<FlushCall>, closes: seq<CloseCall>, accepted: nat, handed: nat, stopped: bool)
  {
    && (forall c :: c in flushes ==> FlushOk(c, accepted, handed))
    && (forall c :: c in closes ==> CloseOk(c, accepted, handed, stopped))
  }

  ghost predicate CallsServed(s: State)
  {
    Served(s.flushes, s.closes, |s.accepted|, |Flat(s.handed)|, s.phase.Stopped?)
  }

  predicate BatchOk(b: Batch)
  {
    b.entries != [] && (!b.drained ==> |b.entries| <= MaxBatchSize)
  }

  ghost predicate Conserved(s: State)
  {
    && s.accepted == Flat(s.handed) + s.batch + s.queue
    && |s.queue| <= QueueSize
    && forall b :: b in s.handed ==> BatchOk(b)
  }

  ghost predicate Inv(s: State)
  {
    && Conserved(s) && CallsServed(s)
    && (s.phase.Selecting? ==> |s.batch| < MaxBatchSize)
    && (s.phase.Stopped? ==> s.batch == [])
  }

  lemma HandedOver(s: State, drained: bool)
    requires Conserved(s) && (!drained ==> |s.batch| <= MaxBatchSize)
    ensures Conserved(HandOver(s, drained))
    ensures Flat(HandOver(s, drained).handed) == Flat(s.handed) + s.batch
    ensures HandOver(s, drained).batch == []
  {
    HandedFlat(s, drained);
    assert Flat(s.handed) + s.batch + [] + s.queue == s.accepted;
  }

  lemma HandOverKeeps(s: State, drained: bool)
    requires Conserved(s) && CallsServed(s) && !s.phase.Stopped? && (!drained ==> |s.batch| <= MaxBatchSize)
    ensures Inv(HandOver(s, drained))
  {
    HandedOver(s, drained);
  }

  lemma EnqueueKeeps(s: State, e: Entry)
    requires Inv(s)
    ensures Inv(Enqueue(s, e))
  {
    assert Flat(s.handed) + s.batch + s.queue + [e] == Flat(s.handed) + s.batch + (s.queue + [e]);
  }

  /** Moving the head of the queue to the batch keeps the order of everything accepted. */
  lemma TakeKeeps(s: State)
    requires Conserved(s) && s.queue != []
    ensures Conserved(s.(queue := s.queue[1..], batch := s.batch + [s.queue[0]]))
  {
    assert s.queue == [s.queue[0]] + s.queue[1..];
  }

  lemma ReceiveKeeps(s: State)
    requires Inv(s)
    ensures Inv(Receive(s))
  {
    if s.phase.Selecting? && s.queue != [] {
      TakeKeeps(s);
      var taken := s.(queue := s.queue[1..], batch := s.batch + [s.queue[0]]);
      if |taken.batch| >= MaxBatchSize {
        HandOverKeeps(taken, false);
      }
    }
  }

  lemma ProgressKeeps(s: State, i: nat, progress: Progress)
    requires CallsServed(s) && i < |s.flushes|
    requires progress.Acked? ==> |s.accepted| <= |Flat(s.handed)|
    ensures CallsServed(s.(flushes := Marked(s.flushes, i, progress)))
  {
    assert s.flushes[i] in s.flushes;
  }

  lemma DrainKeeps(s: State)
    requires Inv(s) && Draining(s.phase)
    ensures Inv(Drain(s))
  {
    if s.queue != [] {
      TakeKeeps(s);
    } else {
      var flushed := HandOver(s, true);
      HandedOver(s, true);
      assert Flat(flushed.handed) == s.accepted;
      if s.phase.DrainingFlush? && s.phase.call < |s.flushes| {
        ProgressKeeps(flushed, s.phase.call, Acked);
      }
    }
  }

  lemma StepKeeps(s: State, a: Action)
    requires Inv(s)
    ensures Inv(Step(s, a))
  {
    match a
    case Handle(e) => EnqueueKeeps(s, e);
    case SetEnabled(b) =>
    case ReceiveEntry => ReceiveKeeps(s);
    case TickerFires =>
      if s.phase.Selecting? { HandOverKeeps(s, false); }
    case FlushCalled =>
    case FlushTaken(i) =>
      if i < |s.flushes| { ProgressKeeps(s, i, Taken); }
    case FlushSkipped(i) =>
      if i < |s.flushes| { ProgressKeeps(s, i, Skipped); }
    case CloseCalled =>
    case CloseTaken =>
    case DrainRound =>
      if Draining(s.phase) { DrainKeeps(s); }
  }

  lemma {:induction false} RunKeeps(s: State, actions: seq<Action>)
    requires Inv(s)
    ensures Inv(Fold(Step, s, actions))
    decreases |actions|
  {
    if actions != [] {
      StepKeeps(s, actions[0]);
      RunKeeps(Step(s, actions[0]), actions[1..]);
    }
  }

  // ------------------------------------------------------------ the theorems

  /**
   Nothing accepted is lost, repeated or reordered: at every moment it is what was handed over, then the
   batch, then the queue. At its select the writer holds fewer entries than a full batch.
   */
  lemma AcceptedIsConserved(actions: seq<Action>)
    ensures var s := Fold(Step, Started, actions);
            && s.accepted == Flat(s.handed) + s.batch + s.queue
            && |s.queue| <= QueueSize
            && (s.phase.Selecting? ==> |s.batch| < MaxBatchSize)
            && forall b :: b in s.handed ==> BatchOk(b)
  {
    RunKeeps(Started, actions);
  }

  /** When an acknowledged Flush returns, everything accepted before the call has been handed over. */
  lemma FlushHandsOver(actions: seq<Action>, i: nat)
    requires i < |Fold(Step, Started, actions).flushes| && Fold(Step, Started, actions).flushes[i].progress.Acked?
    ensures var s := Fold(Step, Started, actions);
            s.flushes[i].mark <= |s.accepted| && s.accepted[..s.flushes[i].mark] <= Flat(s.handed)
  {
    RunKeeps(Started, actions);
    var s := Fold(Step, Started, actions);
    assert s.flushes[i] in s.flushes;
  }

  /** When Close returns, everything accepted before the call has been handed over, if the writer still ran. */
  lemma CloseHandsOver(actions: seq<Action>, i: nat)
    requires i < |Fold(Step, Started, actions).closes| && !Fold(Step, Started, actions).closes[i].late
    requires Fold(Step, Started, actions).phase.Stopped?
    ensures var s := Fold(Step, Started, actions);
            s.closes[i].mark <= |s.accepted| && s.accepted[..s.closes[i].mark] <= Flat(s.handed)
  {
    RunKeeps(Started, actions);
    var s := Fold(Step, Started, actions);
    assert s.closes[i] in s.closes;
  }

  lemma StoppedStep(s: State, a: Action)
    requires s.phase.Stopped?
    ensures Step(s, a).phase.Stopped? && Step(s, a).handed == s.handed && s.accepted <= Step(s, a).accepted
  {
  }

  /** Once the writer has gone, later entries are still accepted but none is ever handed over. */
  lemma {:induction false} StoppedHandsOverNothing(s: State, actions: seq<Action>)
    requires s.phase.Stopped?
    ensures var s' := Fold(Step, s, actions);
            s'.phase.Stopped? && s'.handed == s.handed && s.accepted <= s'.accepted
    decreases |actions|
  {
    if actions != [] {
      StoppedStep(s, actions[0]);
      StoppedHandsOverNothing(Step(s, actions[0]), actions[1..]);
    }
  }
}
