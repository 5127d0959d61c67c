/**
 What every interleaving of regeneration requests and workers keeps, and what a worker has done when it
 ends.
 */
module RegenInvariant {
  import opened Collections
  import opened Schema
  import opened RegenProtocol

  // ----------------------------------------------------------- the invariant

  function Min(ds: seq<Day>): (m: Day)
    requires ds != []
    ensures m in ds
    ensures forall d :: d in ds ==> m <= d
  {
    var last := ds[|ds| - 1];
    if |ds| == 1 then last
    else
      assert ds == ds[..|ds| - 1] + [last];
      var rest := Min(ds[..|ds| - 1]);
      if last < rest then last else rest
  }

  /** How many requests asked for an earlier date than every one before them. */
  function Superseding(ds: seq<Day>): nat
  {
    if |ds| <= 1 then 0
    else Superseding(ds[..|ds| - 1]) + if ds[|ds| - 1] < Min(ds[..|ds| - 1]) then 1 else 0
  }

  /** Failures since the last success. */
  function Trailing(outcomes: seq<bool>): nat
  {
    if outcomes == [] || outcomes[|outcomes| - 1] then 0 else Trailing(outcomes[..|outcomes| - 1]) + 1
  }

  ghost predicate StrictlyEarlier(runs: seq<Day>)
  {
    forall i, j :: 0 <= i < j < |runs| ==> runs[j] < runs[i]
  }

  /** Only the last three runs may all have failed. */
  ghost predicate FailuresBounded(outcomes: seq<bool>)
  {
    forall n :: 0 <= n <= |outcomes| ==>
      Trailing(outcomes[..n]) <= MaxRegenRetries && (Trailing(outcomes[..n]) == MaxRegenRetries ==> n == |outcomes|)
  }

  ghost predicate HistoryOk(w: Worker)
  {
    && w.requests != []
    && |w.runs| == |w.outcomes| + (if w.phase.Running? then 1 else 0)
    && StrictlyEarlier(w.runs)
    && FailuresBounded(w.outcomes)
    && w.failures == Trailing(w.outcomes)
    && (w.phase.Reading? || w.phase.Running? ==> w.failures < MaxRegenRetries)
    && |w.runs| <= 1 + Superseding(w.requests)
  }

  ghost predicate WorkerOk(inFlight: map<Id, Day>, w: Worker)
  {
    && HistoryOk(w)
    && (Live(w) ==> w.portfolioId in inFlight && inFlight[w.portfolioId] == Min(w.requests))
    && match w.phase
       case Reading =>
         |w.runs| <= Superseding(w.requests) && (w.runs != [] ==> Min(w.requests) < w.runs[|w.runs| - 1])
       case Exited =>
         w.runs != [] && (w.failures == MaxRegenRetries || w.runs[|w.runs| - 1] == Min(w.requests))
           && Min(w.requests) <= w.runs[|w.runs| - 1]
       case _ =>
         && w.runs != []
         && Min(w.requests) <= w.runs[|w.runs| - 1]
         && (Min(w.requests) < w.runs[|w.runs| - 1] ==> |w.runs| <= Superseding(w.requests))
  }

  ghost predicate OnePerPortfolio(s: State)
  {
    && (forall i, j :: 0 <= i < j < |s.workers| && Live(s.workers[i]) && Live(s.workers[j]) ==>
          s.workers[i].portfolioId != s.workers[j].portfolioId)
    && (forall p :: p in s.inFlight ==>
          exists i :: 0 <= i < |s.workers| && Live(s.workers[i]) && s.workers[i].portfolioId == p)
  }

  ghost predicate Inv(s: State)
  {
    OnePerPortfolio(s) && forall i :: 0 <= i < |s.workers| ==> WorkerOk(s.inFlight, s.workers[i])
  }

  // ---------------------------------------------------------- preservation

  lemma NextMin(ds: seq<Day>, d: Day)
    requires ds != []
    ensures Min(ds + [d]) == if d < Min(ds) then d else Min(ds)
    ensures Superseding(ds + [d]) == Superseding(ds) + if d < Min(ds) then 1 else 0
  {
    assert (ds + [d])[..|ds|] == ds;
  }

  lemma NotedOk(inFlight: map<Id, Day>, w: Worker, date: Day)
    requires WorkerOk(inFlight, w) && Live(w)
    ensures var before := inFlight[w.portfolioId];
            WorkerOk(if date < before then inFlight[w.portfolioId := date] else inFlight,
                     w.(requests := w.requests + [date]))
  {
    NextMin(w.requests, date);
  }

  lemma OtherEntry(inFlight: map<Id, Day>, w: Worker, p: Id, date: Day)
    requires WorkerOk(inFlight, w) && (Live(w) ==> w.portfolioId != p)
    ensures WorkerOk(inFlight[p := date], w) && WorkerOk(Without(inFlight, p), w)
  {
  }

  lemma NotedWorker(s: State, p: Id, date: Day, i: nat)
    requires Inv(s) && p in s.inFlight && i < |s.workers|
    ensures WorkerOk(RequestOne(s, p, date).inFlight, RequestOne(s, p, date).workers[i])
  {
    var w := s.workers[i];
    assert WorkerOk(s.inFlight, w);
    if Live(w) && w.portfolioId == p {
      NotedOk(s.inFlight, w, date);
    } else {
      OtherEntry(s.inFlight, w, p, date);
    }
  }

  lemma SameWorkersSameEntries(s: State, s': State)
    requires OnePerPortfolio(s) && s'.inFlight.Keys == s.inFlight.Keys && |s'.workers| == |s.workers|
    requires forall i :: 0 <= i < |s.workers| ==>
               s'.workers[i].portfolioId == s.workers[i].portfolioId && (Live(s'.workers[i]) <==> Live(s.workers[i]))
    ensures OnePerPortfolio(s')
  {
    forall q | q in s'.inFlight
      ensures exists i :: 0 <= i < |s'.workers| && Live(s'.workers[i]) && s'.workers[i].portfolioId == q
    {
      assert q in s.inFlight;
      var i :| 0 <= i < |s.workers| && Live(s.workers[i]) && s.workers[i].portfolioId == q;
      assert Live(s'.workers[i]) && s'.workers[i].portfolioId == q;
    }
  }

  lemma NotedEntries(s: State, p: Id, date: Day)
    requires OnePerPortfolio(s) && p in s.inFlight
    ensures OnePerPortfolio(RequestOne(s, p, date))
  {
    SameWorkersSameEntries(s, RequestOne(s, p, date));
  }

  lemma NotedKeeps(s: State, p: Id, date: Day)
    requires Inv(s) && p in s.inFlight
    ensures Inv(RequestOne(s, p, date))
  {
    var s' := RequestOne(s, p, date);
    NotedEntries(s, p, date);
    forall i | 0 <= i < |s'.workers|
      ensures WorkerOk(s'.inFlight, s'.workers[i])
    {
      NotedWorker(s, p, date, i);
    }
  }

  lemma RequestOneKeeps(s: State, p: Id, date: Day)
    requires Inv(s)
    ensures Inv(RequestOne(s, p, date))
  {
    if p in s.inFlight {
      NotedKeeps(s, p, date);
    } else {
      StartedOk(s, p, date);
    }
  }

  lemma StartedWorker(s: State, p: Id, date: Day, i: nat)
    requires Inv(s) && p !in s.inFlight && i <= |s.workers|
    ensures WorkerOk(RequestOne(s, p, date).inFlight, RequestOne(s, p, date).workers[i])
  {
    if i < |s.workers| {
      OtherEntry(s.inFlight, s.workers[i], p, date);
    }
  }

  lemma StartedDistinct(s: State, p: Id, i: nat)
    requires Inv(s) && p !in s.inFlight && i < |s.workers| && Live(s.workers[i])
    ensures s.workers[i].portfolioId != p
  {
    assert WorkerOk(s.inFlight, s.workers[i]);
  }

  lemma StartedEntries(s: State, p: Id, date: Day)
    requires OnePerPortfolio(s) && p !in s.inFlight
    requires forall i :: 0 <= i < |s.workers| && Live(s.workers[i]) ==> s.workers[i].portfolioId != p
    ensures OnePerPortfolio(RequestOne(s, p, date))
  {
    var s' := RequestOne(s, p, date);
    var n := |s.workers|;
    assert Live(s'.workers[n]) && s'.workers[n].portfolioId == p;
    forall q | q in s.inFlight
      ensures exists i :: 0 <= i < |s'.workers| && Live(s'.workers[i]) && s'.workers[i].portfolioId == q
    {
      var i :| 0 <= i < n && Live(s.workers[i]) && s.workers[i].portfolioId == q;
      assert Live(s'.workers[i]) && s'.workers[i].portfolioId == q;
    }
  }

  lemma StartedOk(s: State, p: Id, date: Day)
    requires Inv(s) && p !in s.inFlight
    ensures Inv(RequestOne(s, p, date))
  {
    var s' := RequestOne(s, p, date);
    forall i | 0 <= i < |s.workers| && Live(s.workers[i])
      ensures s.workers[i].portfolioId != p
    {
      StartedDistinct(s, p, i);
    }
    StartedEntries(s, p, date);
    forall i | 0 <= i < |s'.workers|
      ensures WorkerOk(s'.inFlight, s'.workers[i])
    {
      StartedWorker(s, p, date, i);
    }
  }

  lemma {:induction false} RequestAllKeeps(s: State, portfolioIds: seq<Id>, date: Day)
    requires Inv(s)
    ensures Inv(RequestAll(s, portfolioIds, date))
  {
    if portfolioIds != [] {
      var n := |portfolioIds| - 1;
      RequestAllKeeps(s, portfolioIds[..n], date);
      RequestOneKeeps(RequestAll(s, portfolioIds[..n], date), portfolioIds[n], date);
    }
  }

  /** A worker that stays live keeps its entry; the others do not notice. */
  lemma SteppedKeeps(s: State, i: nat, w': Worker)
    requires Inv(s) && i < |s.workers| && Live(s.workers[i]) && Live(w')
    requires w'.portfolioId == s.workers[i].portfolioId && WorkerOk(s.inFlight, w')
    ensures Inv(s.(workers := s.workers[i := w']))
  {
    SameWorkersSameEntries(s, s.(workers := s.workers[i := w']));
  }

  lemma EndedEntries(s: State, i: nat, w': Worker)
    requires OnePerPortfolio(s) && i < |s.workers| && Live(s.workers[i]) && !Live(w')
    ensures OnePerPortfolio(State(Without(s.inFlight, s.workers[i].portfolioId), s.workers[i := w']))
  {
    var s' := State(Without(s.inFlight, s.workers[i].portfolioId), s.workers[i := w']);
    forall q | q in s'.inFlight
      ensures exists k :: 0 <= k < |s'.workers| && Live(s'.workers[k]) && s'.workers[k].portfolioId == q
    {
      var k :| 0 <= k < |s.workers| && Live(s.workers[k]) && s.workers[k].portfolioId == q;
      assert Live(s'.workers[k]) && s'.workers[k].portfolioId == q;
    }
  }

  lemma EndedWorker(s: State, i: nat, w': Worker, k: nat)
    requires Inv(s) && i < |s.workers| && k < |s.workers| && Live(s.workers[i]) && !Live(w')
    requires WorkerOk(s.inFlight, w')
    ensures WorkerOk(Without(s.inFlight, s.workers[i].portfolioId), s.workers[i := w'][k])
  {
    assert WorkerOk(s.inFlight, s.workers[k]);
    OtherEntry(s.inFlight, s.workers[i := w'][k], s.workers[i].portfolioId, 0);
  }

  lemma EndedKeeps(s: State, i: nat, w': Worker)
    requires Inv(s) && i < |s.workers| && Live(s.workers[i]) && !Live(w')
    requires WorkerOk(s.inFlight, w')
    ensures Inv(State(Without(s.inFlight, s.workers[i].portfolioId), s.workers[i := w']))
  {
    EndedEntries(s, i, w');
    var after := s.workers[i := w'];
    forall k | 0 <= k < |after|
      ensures WorkerOk(Without(s.inFlight, s.workers[i].portfolioId), after[k])
    {
      EndedWorker(s, i, w', k);
    }
  }

  lemma ReadOk(inFlight: map<Id, Day>, w: Worker)
    requires WorkerOk(inFlight, w) && w.phase.Reading?
    ensures WorkerOk(inFlight, w.(phase := Running, runs := w.runs + [inFlight[w.portfolioId]]))
  {
  }

  lemma NextOutcome(outcomes: seq<bool>, ok: bool)
    requires FailuresBounded(outcomes) && Trailing(outcomes) < MaxRegenRetries
    ensures FailuresBounded(outcomes + [ok])
    ensures Trailing(outcomes + [ok]) == if ok then 0 else Trailing(outcomes) + 1
  {
    var more := outcomes + [ok];
    assert more[..|outcomes|] == outcomes;
    assert outcomes[..|outcomes|] == outcomes;
    forall n | 0 <= n <= |more|
      ensures Trailing(more[..n]) <= MaxRegenRetries && (Trailing(more[..n]) == MaxRegenRetries ==> n == |more|)
    {
      if n <= |outcomes| {
        assert more[..n] == outcomes[..n];
      } else {
        assert more[..n] == more;
      }
    }
  }

  lemma FinishOk(inFlight: map<Id, Day>, w: Worker, ok: bool)
    requires WorkerOk(inFlight, w) && w.phase.Running?
    ensures WorkerOk(inFlight, Finished(w, ok))
  {
    NextOutcome(w.outcomes, ok);
  }

  lemma DecideOk(inFlight: map<Id, Day>, w: Worker)
    requires WorkerOk(inFlight, w) && w.phase.Deciding?
    ensures w.failures >= MaxRegenRetries || inFlight[w.portfolioId] >= w.runs[|w.runs| - 1] ==>
              WorkerOk(inFlight, w.(phase := Exited))
    ensures w.failures < MaxRegenRetries && inFlight[w.portfolioId] < w.runs[|w.runs| - 1] ==>
              WorkerOk(inFlight, w.(phase := Reading))
  {
    assert w.outcomes[..|w.outcomes|] == w.outcomes;
  }

  lemma ReadKeeps(s: State, i: nat)
    requires Inv(s)
    ensures Inv(Step(s, Read(i)))
  {
    if i < |s.workers| && s.workers[i].phase.Reading? {
      var w := s.workers[i];
      ReadOk(s.inFlight, w);
      var w' := w.(phase := Running, runs := w.runs + [s.inFlight[w.portfolioId]]);
      assert Step(s, Read(i)) == s.(workers := s.workers[i := w']);
      SteppedKeeps(s, i, w');
    }
  }

  lemma RunningOk(s: State, i: nat)
    requires Inv(s) && i < |s.workers|
    ensures WorkerOk(s.inFlight, s.workers[i])
  {
  }

  lemma FinishKeeps(s: State, i: nat, ok: bool)
    requires Inv(s) && i < |s.workers| && s.workers[i].phase.Running?
    ensures Inv(s.(workers := s.workers[i := Finished(s.workers[i], ok)]))
  {
    RunningOk(s, i);
    FinishOk(s.inFlight, s.workers[i], ok);
    SteppedKeeps(s, i, Finished(s.workers[i], ok));
  }

  lemma StepKeeps(s: State, a: Action)
    requires Inv(s)
    ensures Inv(Step(s, a))
  {
    match a
    case Trigger(portfolioIds, date) => RequestAllKeeps(s, portfolioIds, date);
    case Read(i) => ReadKeeps(s, i);
    case Finish(i, ok) =>
      if i < |s.workers| && s.workers[i].phase.Running? { FinishKeeps(s, i, ok); }
    case Conclude(i) => ConcludeKeeps(s, i);
  }

  lemma ConcludeKeeps(s: State, i: nat)
    requires Inv(s)
    ensures Inv(Step(s, Conclude(i)))
  {
    if i < |s.workers| && s.workers[i].phase.Deciding? {
      var w := s.workers[i];
      DecideOk(s.inFlight, w);
      if w.failures >= MaxRegenRetries || s.inFlight[w.portfolioId] >= w.runs[|w.runs| - 1] {
        EndedKeeps(s, i, w.(phase := Exited));
      } else {
        SteppedKeeps(s, i, w.(phase := Reading));
      }
    }
  }

  /** Every interleaving keeps the invariant. */
  lemma {:induction false} RunKeeps(s: State, actions: seq<Action>)
    requires Inv(s)
    ensures Inv(Fold(Step, s, actions))
    decreases |actions|
  {
    if actions != [] {
      StepKeeps(s, actions[0]);
      RunKeeps(Step(s, actions[0]), actions[1..]);
    }
  }

  // ------------------------------------------------------------ the theorems

  /**
   In every reachable state a portfolio has a live worker exactly when it is in flight, never two, and
   the entry is the earliest date requested since that worker was registered.
   */
  lemma OneWorkerPerEntry(actions: seq<Action>, p: Id)
    ensures var s := Fold(Step, Idle, actions);
            && (p in s.inFlight <==>
                exists i :: 0 <= i < |s.workers| && Live(s.workers[i]) && s.workers[i].portfolioId == p)
            && (forall i, j :: 0 <= i < j < |s.workers| && Live(s.workers[i]) && Live(s.workers[j]) ==>
                  s.workers[i].portfolioId != s.workers[j].portfolioId)
            && (forall i :: 0 <= i < |s.workers| && Live(s.workers[i]) ==>
                  && s.workers[i].requests != [] && s.workers[i].portfolioId in s.inFlight
                  && s.inFlight[s.workers[i].portfolioId] == Min(s.workers[i].requests))
  {
    RunKeeps(Idle, actions);
    var s := Fold(Step, Idle, actions);
    assert forall i :: 0 <= i < |s.workers| ==> WorkerOk(s.inFlight, s.workers[i]);
  }

  /** Some successful run started no later than every request made while the entry existed. */
  ghost predicate Covered(w: Worker)
    requires |w.runs| == |w.outcomes|
  {
    exists k :: 0 <= k < |w.runs| && w.outcomes[k] && forall d :: d in w.requests ==> w.runs[k] <= d
  }

  /**
   A worker that has ended has regenerated everything requested of it if and only if its last run
   succeeded; a single failed run with no earlier request leaves the requests unmet.
   */
  lemma EndedCoveredIff(actions: seq<Action>, i: nat)
    requires i < |Fold(Step, Idle, actions).workers| && !Live(Fold(Step, Idle, actions).workers[i])
    ensures var w := Fold(Step, Idle, actions).workers[i];
            |w.runs| == |w.outcomes| > 0 && (Covered(w) <==> w.outcomes[|w.outcomes| - 1])
  {
    RunKeeps(Idle, actions);
    var s := Fold(Step, Idle, actions);
    var w := s.workers[i];
    assert WorkerOk(s.inFlight, w);
    var last := |w.runs| - 1;
    if w.outcomes[last] {
      assert w.runs[last] == Min(w.requests);
    } else {
      forall k | 0 <= k < |w.runs| && w.outcomes[k]
        ensures Min(w.requests) in w.requests && Min(w.requests) < w.runs[k]
      {
        assert k < last;
      }
    }
  }

  /**
   Every iteration of a worker starts strictly earlier than the one before; there is at most one iteration
   more than superseding requests, and never more than three failures in a row.
   */
  lemma WorkerTerminates(actions: seq<Action>, i: nat)
    requires i < |Fold(Step, Idle, actions).workers|
    ensures var w := Fold(Step, Idle, actions).workers[i];
            && StrictlyEarlier(w.runs)
            && |w.runs| <= 1 + Superseding(w.requests)
            && forall n :: 0 <= n <= |w.outcomes| ==> Trailing(w.outcomes[..n]) <= 3
  {
    RunKeeps(Idle, actions);
    var s := Fold(Step, Idle, actions);
    assert WorkerOk(s.inFlight, s.workers[i]);
  }

  lemma RepeatsWhen(inFlight: map<Id, Day>, w: Worker)
    requires WorkerOk(inFlight, w) && w.phase.Deciding?
    ensures w.runs != [] && w.portfolioId in inFlight
    ensures w.failures < MaxRegenRetries && inFlight[w.portfolioId] < w.runs[|w.runs| - 1] <==>
            Trailing(w.outcomes) < 3 && exists d :: d in w.requests && d < w.runs[|w.runs| - 1]
  {
  }

  lemma DecidedWorker(s: State, i: nat)
    requires i < |s.workers| && s.workers[i].phase.Deciding? && s.workers[i].runs != []
    requires s.workers[i].portfolioId in s.inFlight
    ensures var w := s.workers[i];
            Live(Step(s, Conclude(i)).workers[i]) <==>
            w.failures < MaxRegenRetries && s.inFlight[w.portfolioId] < w.runs[|w.runs| - 1]
  {
  }

  /**
   A worker that has finished a run goes round again if and only if fewer than three runs in a row have failed
   and a date earlier than that of the run has been requested.
   */
  lemma RepeatsIff(actions: seq<Action>, i: nat)
    requires i < |Fold(Step, Idle, actions).workers| && Fold(Step, Idle, actions).workers[i].phase.Deciding?
    ensures var s := Fold(Step, Idle, actions);
            var w, after := s.workers[i], Step(s, Conclude(i)).workers[i];
            && w.runs != []
            && (Live(after) <==>
                Trailing(w.outcomes) < 3 && exists d :: d in w.requests && d < w.runs[|w.runs| - 1])
  {
    RunKeeps(Idle, actions);
    var s := Fold(Step, Idle, actions);
    RepeatsWhen(s.inFlight, s.workers[i]);
    DecidedWorker(s, i);
  }

  /** A request leaves each portfolio it names in flight from its date at the latest, and no other one changed. */
  lemma {:induction false} RequestsRegister(s: State, portfolioIds: seq<Id>, date: Day, p: Id)
    ensures var after := RequestAll(s, portfolioIds, date);
            && (p in portfolioIds ==>
                  p in after.inFlight &&
                  after.inFlight[p] == if p in s.inFlight && s.inFlight[p] < date then s.inFlight[p] else date)
            && (p !in portfolioIds ==>
                  (p in after.inFlight <==> p in s.inFlight) &&
                  (p in s.inFlight ==> after.inFlight[p] == s.inFlight[p]))
  {
    if portfolioIds != [] {
      var init, last := portfolioIds[..|portfolioIds| - 1], portfolioIds[|portfolioIds| - 1];
      assert portfolioIds == init + [last];
      RequestsRegister(s, init, date, p);
    }
  }

  /** The retry limit does not apply to a lone failure: the first failed run is also the last. */
  lemma LoneFailureIsNotRetried(p: Id, date: Day)
    ensures var s := Fold(Step, Idle, [Trigger([p], date), Read(0), Finish(0, false), Conclude(0)]);
            && s.inFlight == map[] && |s.workers| == 1 && !Live(s.workers[0])
            && s.workers[0].runs == [date] && s.workers[0].outcomes == [false]
  {
    var s1 := Step(Idle, Trigger([p], date));
    var ps := [p];
    assert ps[..|ps| - 1] == [];
    assert RequestAll(Idle, ps[..|ps| - 1], date) == Idle;
    assert s1 == State(map[p := date], [Worker(p, Reading, 0, [date], [], [])]);
    var s2 := Step(s1, Read(0));
    assert s2.workers[0] == Worker(p, Running, 0, [date], [date], []);
    var s3 := Step(s2, Finish(0, false));
    assert s3.workers[0] == Worker(p, Deciding, 1, [date], [date], [false]);
    var s4 := Step(s3, Conclude(0));
    assert s4.workers[0] == Worker(p, Exited, 1, [date], [date], [false]);
    assert s4.inFlight == map[];
    var actions := [Trigger([p], date), Read(0), Finish(0, false), Conclude(0)];
    assert actions[1..][1..][1..][1..] == [];
    assert Fold(Step, s3, actions[1..][1..][1..]) == s4;
    assert Fold(Step, s1, actions[1..]) == s4;
  }
}
