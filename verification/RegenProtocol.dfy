/**
 materialized_service.go: the background regeneration of portfolios, one atomic step per critical section
 of regenMu, under any interleaving of requests and workers. Workers carry the history of what was
 requested and run while their entry existed.
 */
module RegenProtocol {
  import opened Collections
  import opened Schema

  const MaxRegenRetries := 3

  datatype Phase = Reading | Running | Deciding | Exited

  datatype Worker = Worker(
    portfolioId: Id, phase: Phase, failures: nat,
    requests: seq<Day>, runs: seq<Day>, outcomes: seq<bool>)

  datatype State = State(inFlight: map<Id, Day>, workers: seq<Worker>)

  predicate Live(w: Worker)
  {
    !w.phase.Exited?
  }

  // ------------------------------------------------------------- the steps

  /** A request reaches the live worker of its portfolio, whether it moves the date or is dropped. */
  function Noted(workers: seq<Worker>, portfolioId: Id, date: Day): (r: seq<Worker>)
    ensures |r| == |workers|
    ensures forall i :: 0 <= i < |workers| ==>
      r[i] == if Live(workers[i]) && workers[i].portfolioId == portfolioId
              then workers[i].(requests := workers[i].requests + [date]) else workers[i]
  {
    seq(|workers|, i requires 0 <= i < |workers| =>
      if Live(workers[i]) && workers[i].portfolioId == portfolioId
      then workers[i].(requests := workers[i].requests + [date]) else workers[i])
  }

  function RequestOne(s: State, portfolioId: Id, date: Day): State
  {
    if portfolioId in s.inFlight then
      State(
        if date < s.inFlight[portfolioId] then s.inFlight[portfolioId := date] else s.inFlight,
        Noted(s.workers, portfolioId, date))
    else
      State(s.inFlight[portfolioId := date],
            s.workers + [Worker(portfolioId, Reading, 0, [date], [], [])])
  }

  function RequestAll(s: State, portfolioIds: seq<Id>, date: Day): State
  {
    if portfolioIds == [] then s
    else RequestOne(RequestAll(s, portfolioIds[..|portfolioIds| - 1], date), portfolioIds[|portfolioIds| - 1], date)
  }

  /** The top of the worker's loop: reads its date, or ends when the entry is gone. */
  function ReadStart(s: State, i: nat): State
    requires i < |s.workers|
  {
    var w := s.workers[i];
    if !w.phase.Reading? then s
    else if w.portfolioId !in s.inFlight then s.(workers := s.workers[i := w.(phase := Exited)])
    else s.(workers := s.workers[i := w.(phase := Running, runs := w.runs + [s.inFlight[w.portfolioId]])])
  }

  function Finished(w: Worker, ok: bool): Worker
  {
    w.(phase := Deciding, failures := if ok then 0 else w.failures + 1, outcomes := w.outcomes + [ok])
  }

  /** The regeneration returns. */
  function FinishRun(s: State, i: nat, ok: bool): State
    requires i < |s.workers|
  {
    var w := s.workers[i];
    if !w.phase.Running? then s
    else s.(workers := s.workers[i := Finished(w, ok)])
  }

  function Without(m: map<Id, Day>, key: Id): map<Id, Day>
  {
    map k | k in m && k != key :: m[k]
  }

  /** The worker gives up, ends because no earlier date came in, or goes round again. */
  function Decide(s: State, i: nat): State
    requires i < |s.workers|
  {
    var w := s.workers[i];
    if !w.phase.Deciding? || w.runs == [] then s
    else if w.failures >= MaxRegenRetries then
      State(Without(s.inFlight, w.portfolioId), s.workers[i := w.(phase := Exited)])
    else if w.portfolioId in s.inFlight && s.inFlight[w.portfolioId] >= w.runs[|w.runs| - 1] then
      State(Without(s.inFlight, w.portfolioId), s.workers[i := w.(phase := Exited)])
    else s.(workers := s.workers[i := w.(phase := Reading)])
  }

  datatype Action =
    | Trigger(portfolioIds: seq<Id>, date: Day)
    | Read(worker: nat)
    | Finish(worker: nat, ok: bool)
    | Conclude(worker: nat)

  function Step(s: State, a: Action): State
  {
    match a
    case Trigger(portfolioIds, date) => RequestAll(s, portfolioIds, date)
    case Read(i) => if i < |s.workers| then ReadStart(s, i) else s
    case Finish(i, ok) => if i < |s.workers| then FinishRun(s, i, ok) else s
    case Conclude(i) => if i < |s.workers| then Decide(s, i) else s
  }

  const Idle: State := State(map[], [])

  // ------------------------------------------------------------ the service

  /** The shared map and the goroutines started so far; each method is one critical section. */
  class RegenCoordinator {
    var regenInFlight: map<Id, Day>
    var workers: seq<Worker>

    constructor ()
      ensures Now() == Idle
    {
      regenInFlight := map[];
      workers := [];
    }

    function Now(): State
      reads this
    {
      State(regenInFlight, workers)
    }

    method TriggerBackgroundRegeneration(portfolioIds: seq<Id>, startDate: Day)
      modifies this
      ensures Now() == RequestAll(old(Now()), portfolioIds, startDate)
    {
      var i := 0;
      while i < |portfolioIds|
        invariant 0 <= i <= |portfolioIds|
        invariant Now() == RequestAll(old(Now()), portfolioIds[..i], startDate)
      {
        var pid := portfolioIds[i];
        assert portfolioIds[..i + 1][..i] == portfolioIds[..i];
        if pid in regenInFlight {
          if startDate < regenInFlight[pid] {
            regenInFlight := regenInFlight[pid := startDate];
          }
          workers := Noted(workers, pid, startDate);
        } else {
          regenInFlight := regenInFlight[pid := startDate];
          workers := workers + [Worker(pid, Reading, 0, [startDate], [], [])];
        }
        i := i + 1;
      }
      assert portfolioIds[..|portfolioIds|] == portfolioIds;
    }

    /** The date the worker runs from, if its entry is still there. */
    method ReadStartDate(i: nat) returns (startDate: Option<Day>)
      requires i < |workers| && workers[i].phase.Reading?
      modifies this
      ensures Now() == ReadStart(old(Now()), i)
      ensures startDate == if old(workers[i].portfolioId) in old(regenInFlight)
                           then Some(old(regenInFlight)[old(workers[i].portfolioId)]) else None
    {
      var w := workers[i];
      if w.portfolioId !in regenInFlight {
        workers := workers[i := w.(phase := Exited)];
        return None;
      }
      startDate := Some(regenInFlight[w.portfolioId]);
      workers := workers[i := w.(phase := Running, runs := w.runs + [startDate.value])];
    }

    method RecordOutcome(i: nat, ok: bool)
      requires i < |workers| && workers[i].phase.Running?
      modifies this
      ensures Now() == FinishRun(old(Now()), i, ok)
    {
      var w := workers[i];
      var failures := w.failures;
      if ok {
        failures := 0;
      } else {
        failures := failures + 1;
      }
      workers := workers[i := w.(phase := Deciding, failures := failures, outcomes := w.outcomes + [ok])];
    }

    /** False when the worker's loop is over. */
    method ContinueOrEnd(i: nat) returns (again: bool)
      requires i < |workers| && workers[i].phase.Deciding? && workers[i].runs != []
      modifies this
      ensures Now() == Decide(old(Now()), i)
      ensures again <==> Live(workers[i])
    {
      var w := workers[i];
      var startDate := w.runs[|w.runs| - 1];
      if w.failures >= MaxRegenRetries {
        regenInFlight := Without(regenInFlight, w.portfolioId);
        workers := workers[i := w.(phase := Exited)];
        return false;
      }
      if w.portfolioId in regenInFlight && !(regenInFlight[w.portfolioId] < startDate) {
        regenInFlight := Without(regenInFlight, w.portfolioId);
        workers := workers[i := w.(phase := Exited)];
        return false;
      }
      workers := workers[i := w.(phase := Reading)];
      again := true;
    }
  }
}
