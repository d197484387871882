/** Loading clears: once mutations cease, the pending callbacks run out. */
module RadioProgress {
  import opened Wrappers
  import opened RadioProtocol
  import opened RadioSafety

  predicate MovesIndex(signals: seq<Signal>) {
    exists i :: 0 <= i < |signals| && signals[i].IndexChanged?
  }

  /**
    Pending callbacks, and nothing else: a finished worker, a seeded start, or a
    queued refill check.  Mutations have ceased, so a completion that queues its
    picks does not move the current row.
  */
  ghost predicate Callback(s: Core, e: Event) {
    (e.WorkerFinished? && e.worker in s.workers && !MovesIndex(e.signals)) ||
    (e.StartFinished? && e.id in s.pendingStarts) ||
    (e.TopUpTimer? && s.timers > 0)
  }

  predicate NoCallbackLeft(s: Core) {
    s.workers == map[] && s.pendingStarts == {} && s.timers == 0
  }

  ghost predicate StaleCurrent(s: Core) {
    exists id :: CurrentWorker(s, id) && Stale(s, s.workers[id])
  }

  /**
    An upper bound on the callbacks left: a stale batch may be retried once, a
    start may begin a batch, and so may a refill check.
  */
  ghost function CallbacksLeft(s: Core): nat {
    |s.workers| + (if StaleCurrent(s) then 1 else 0) + 3 * |s.pendingStarts| + 2 * s.timers
  }

  lemma CallbackProgress(s: Core, e: Event)
    requires Invariant(s) && Callback(s, e)
    ensures Enabled(s, e) && CallbacksLeft(Step(s, e)) < CallbacksLeft(s)
  {
    match e
    case WorkerFinished(id, score, signals, retain) =>
      CompleteProgress(s, id, score, signals, retain);
      assert Step(s, e) == Complete(s, id, score, signals, retain);
    case StartFinished(id, outcome) =>
      FinishProgress(s, id, outcome);
      assert Step(s, e) == FinishSeededStart(s, id, outcome);
    case TopUpTimer =>
      TimerProgress(s);
      assert Step(s, e) == FireTimer(s);
  }

  lemma FinishProgress(s: Core, id: nat, outcome: StartOutcome)
    requires Invariant(s) && id in s.pendingStarts
    ensures CallbacksLeft(FinishSeededStart(s, id, outcome)) < CallbacksLeft(s)
  {
    var t := FinishSeededStart(s, id, outcome);
    FinishKeeps(s, id, outcome);
    assert |t.pendingStarts| == |s.pendingStarts| - 1;
    assert t.workers == s.workers || t.workers == s.workers[s.nextWorker := t.workers[s.nextWorker]];
    assert |t.workers| <= |s.workers| + 1;
  }

  /** A refill check starts a batch only when none is in progress, and then with the stamps of the moment. */
  lemma TimerProgress(s: Core)
    requires Invariant(s) && s.timers > 0
    ensures CallbacksLeft(FireTimer(s)) < CallbacksLeft(s)
  {
    var fired := s.(timers := s.timers - 1);
    assert forall id :: CurrentWorker(fired, id) <==> CurrentWorker(s, id);
    if FireTimer(s) != fired {
      ReactKeeps(s, fired);
      RetryIsFresh(fired);
    }
  }

  lemma {:induction false} TimersStay(s: Core, signals: seq<Signal>)
    requires !MovesIndex(signals)
    ensures HandleAll(s, signals).timers == s.timers
    decreases |signals|
  {
    if signals != [] {
      assert !signals[0].IndexChanged?;
      forall i | 0 <= i < |signals| - 1 ensures !signals[1..][i].IndexChanged? {
        assert signals[1..][i] == signals[i + 1];
      }
      TimersStay(Handle(s, signals[0]), signals[1..]);
    }
  }

  lemma InstallTimersStay(s: Core, result: BatchResult, signals: seq<Signal>, retain: Retain)
    requires !MovesIndex(signals)
    ensures Install(s, result, signals, retain).timers == s.timers
  {
    TimersStay(s.(session := Some(result.session), sessionRevision := s.sessionRevision + 1,
                  picks := s.picks + set p | p in result.picks), signals);
  }

  lemma CompleteProgress(s: Core, id: nat, score: Score, signals: seq<Signal>, retain: Retain)
    requires Invariant(s) && id in s.workers && !MovesIndex(signals)
    ensures CallbacksLeft(Complete(s, id, score, signals, retain)) < CallbacksLeft(s)
  {
    var w := s.workers[id];
    var landed := s.(workers := s.workers - {id});
    assert |landed.workers| == |s.workers| - 1;
    var t := Complete(s, id, score, signals, retain);
    if w.requestId != s.requestId {
      assert StaleCurrent(t) ==> StaleCurrent(s);
    } else {
      assert CurrentWorker(s, id);
      Landed(s, id);
      var quiet := landed.(topUpInProgress := false, loading := false);
      if Stale(s, w) || !s.radioActive || s.session.None? {
        assert t == MaybeTopUp(quiet);
        assert StaleCurrent(s);
        RetryIsFresh(quiet);
      } else {
        var result := score(w.snapshot, w.queued, PendingPicks(landed.(topUpInProgress := false)));
        InstallReacts(landed.(topUpInProgress := false), result, signals, retain);
        InstallTimersStay(landed.(topUpInProgress := false), result, signals, retain);
        assert forall x :: CurrentWorker(t, x) ==> CurrentWorker(quiet, x);
      }
    }
  }

  /** A batch begun while none is current adds one worker, with the stamps of the moment. */
  lemma RetryIsFresh(s: Core)
    requires Invariant(s) && !s.topUpInProgress
    ensures var t := MaybeTopUp(s);
            |t.workers| <= |s.workers| + 1 && !StaleCurrent(t) && t.pendingStarts == s.pendingStarts && t.timers == s.timers
  {
    var t := MaybeTopUp(s);
    forall x | CurrentWorker(t, x) ensures !Stale(t, t.workers[x]) {
      assert !CurrentWorker(s, x);
    }
  }

  /** With no worker in flight and no start pending, nothing is in progress and loading is cleared. */
  lemma QuietMeansNotLoading(s: Core)
    requires Invariant(s) && s.workers == map[] && s.pendingStarts == {}
    ensures !s.loading && !s.topUpInProgress
  {
    assert forall id :: !CurrentWorker(s, id);
  }

  /**
    When only pending callbacks run, of all three kinds, the run ends within the
    bound, and it ends with loading cleared: a run that has no callback left
    shows no loading, and one that still loads has a worker or a start to wait for.
  */
  lemma {:induction false} CallbacksClearLoading(trace: seq<Core>, events: seq<Event>)
    requires |trace| == |events| + 1 && Invariant(trace[0])
    requires forall i :: 0 <= i < |events| ==> Callback(trace[i], events[i]) && trace[i + 1] == Step(trace[i], events[i])
    ensures |events| + CallbacksLeft(trace[|events|]) <= CallbacksLeft(trace[0]) && Invariant(trace[|events|])
    ensures NoCallbackLeft(trace[|events|]) ==> !trace[|events|].loading
    ensures trace[|events|].loading ==> trace[|events|].workers != map[] || trace[|events|].pendingStarts != {}
    decreases |events|
  {
    if events != [] {
      var n := |events| - 1;
      CallbacksClearLoading(trace[..n + 1], events[..n]);
      assert Callback(trace[n], events[n]) && trace[n + 1] == Step(trace[n], events[n]);
      CallbackProgress(trace[n], events[n]);
      StepKeeps(trace[n], events[n]);
    }
    var last := trace[|events|];
    if last.workers == map[] && last.pendingStarts == {} {
      QuietMeansNotLoading(last);
    }
  }
}
