/**
  Safety of the radio batch protocol: every step keeps the control invariant, and
  a run in which finished copies are installed equals one in which each batch is
  scored on the live session at the moment it completes.
*/
module RadioSafety {
  import opened Wrappers
  import opened RadioProtocol

  // ---- the control invariant -------------------------------------------------

  ghost predicate CurrentWorker(s: Core, id: nat) {
    id in s.workers && s.workers[id].requestId == s.requestId
  }

  /** What a worker of the current request can rely on. */
  ghost predicate Tracks(s: Core, w: Worker) {
    s.radioActive && s.session.Some? &&
    w.sessionRevision <= s.sessionRevision && w.queueRevision <= s.queueRevision &&
    (w.sessionRevision == s.sessionRevision ==> s.session == Some(w.snapshot)) &&
    (w.queueRevision == s.queueRevision ==> s.queue == w.queued)
  }

  ghost predicate Invariant(s: Core) {
    (forall id :: id in s.workers ==> id < s.nextWorker && s.workers[id].requestId <= s.requestId) &&
    (forall id :: id in s.pendingStarts ==> id <= s.requestId) &&
    (s.topUpInProgress <==> exists id :: CurrentWorker(s, id)) &&
    (forall a, b :: CurrentWorker(s, a) && CurrentWorker(s, b) ==> a == b) &&
    (forall id :: CurrentWorker(s, id) ==> Tracks(s, s.workers[id])) &&
    (s.requestId in s.pendingStarts ==> s.radioActive && s.session.None? && !s.topUpInProgress) &&
    (s.loading <==> s.topUpInProgress || s.requestId in s.pendingStarts) &&
    (s.radioActive ==> !s.shuffleSession)
  }

  /** What player signals can do: they move the session and the queue, and say so through the revisions. */
  ghost predicate Reacts(s: Core, t: Core) {
    t.requestId == s.requestId && t.topUpInProgress == s.topUpInProgress && t.loading == s.loading &&
    t.radioActive == s.radioActive && t.workers == s.workers &&
    t.nextWorker == s.nextWorker && t.pendingStarts == s.pendingStarts &&
    s.sessionRevision <= t.sessionRevision && s.queueRevision <= t.queueRevision &&
    (s.radioActive && !s.shuffleSession ==>
       !t.shuffleSession && t.session.Some? == s.session.Some? &&
       (t.sessionRevision == s.sessionRevision ==> t.session == s.session) &&
       (t.queueRevision == s.queueRevision ==> t.queue == s.queue))
  }

  lemma ProviderReacts(s: Core, next: Session -> BatchResult, markPicks: bool)
    ensures Reacts(s, CallProvider(s, next, markPicks))
  {
  }

  lemma ShuffleReacts(s: Core, radioShuffle: bool, rebuilt: Option<Session>)
    ensures Reacts(s, SyncShuffle(s, radioShuffle, rebuilt))
  {
  }

  lemma HandleReacts(s: Core, signal: Signal)
    ensures Reacts(s, Handle(s, signal))
  {
    match signal
    case QueueChanged(_, _, _) =>
    case IndexChanged(_) =>
    case TrackStarted(_, _, _) =>
    case ProviderCalled(next, markPicks) => ProviderReacts(s, next, markPicks);
    case ShuffleSynced(radioShuffle, rebuilt) => ShuffleReacts(s, radioShuffle, rebuilt);
  }

  lemma {:induction false} HandleAllReacts(s: Core, signals: seq<Signal>)
    ensures Reacts(s, HandleAll(s, signals))
    decreases |signals|
  {
    if signals != [] {
      HandleReacts(s, signals[0]);
      HandleAllReacts(Handle(s, signals[0]), signals[1..]);
    }
  }

  lemma ReactKeeps(s: Core, t: Core)
    requires Invariant(s) && Reacts(s, t)
    ensures Invariant(t)
  {
    forall id | CurrentWorker(t, id) ensures CurrentWorker(s, id) && Tracks(t, t.workers[id]) {
      assert CurrentWorker(s, id);
    }
    if s.topUpInProgress {
      var id :| CurrentWorker(s, id);
      assert CurrentWorker(t, id);
    }
  }

  lemma KeepsIfReacts(s: Core, t: Core)
    requires Reacts(s, t)
    ensures Invariant(s) ==> Invariant(t)
  {
    if Invariant(s) {
      ReactKeeps(s, t);
    }
  }

  /** A state for a new request: nothing in flight or pending belongs to it. */
  lemma NewRequest(s: Core, t: Core)
    requires Invariant(s) && t.requestId == s.requestId + 1 && t.workers == s.workers && t.nextWorker == s.nextWorker
    requires t.pendingStarts == s.pendingStarts && !t.topUpInProgress && !t.loading
    requires t.radioActive ==> !t.shuffleSession
    ensures Invariant(t)
  {
    forall id ensures !CurrentWorker(t, id) {
      if id in s.workers {
        assert s.workers[id].requestId <= s.requestId;
      }
    }
    assert t.requestId !in t.pendingStarts;
  }

  lemma AppendKeeps(s: Core, count: int)
    requires Invariant(s) && s.radioActive
    ensures Invariant(AppendBatch(s, count))
    ensures AppendBatch(s, count).workers != s.workers ==>
              exists id :: id !in s.workers && AppendBatch(s, count).workers.Keys == s.workers.Keys + {id} &&
                CurrentWorker(AppendBatch(s, count), id) && !Stale(AppendBatch(s, count), AppendBatch(s, count).workers[id])
  {
    var t := AppendBatch(s, count);
    if t != s {
      assert forall id :: CurrentWorker(t, id) ==> id == s.nextWorker || CurrentWorker(s, id);
      assert CurrentWorker(t, s.nextWorker);
      assert s.nextWorker !in s.workers;
      assert !Stale(t, t.workers[s.nextWorker]);
    }
  }

  lemma TopUpKeeps(s: Core)
    requires Invariant(s)
    ensures Invariant(MaybeTopUp(s))
  {
    if s.radioActive {
      AppendKeeps(s, s.batchSize);
    }
  }

  lemma TimerKeeps(s: Core)
    requires Invariant(s) && s.timers > 0
    ensures Invariant(FireTimer(s))
  {
    ReactKeeps(s, s.(timers := s.timers - 1));
    TopUpKeeps(s.(timers := s.timers - 1));
  }

  lemma ThresholdKeeps(s: Core, value: int)
    requires Invariant(s)
    ensures Invariant(MaybeTopUp(s.(refillThreshold := Clamp(value, 0, 100))))
  {
    ReactKeeps(s, s.(refillThreshold := Clamp(value, 0, 100)));
    TopUpKeeps(s.(refillThreshold := Clamp(value, 0, 100)));
  }

  lemma StopKeeps(s: Core, radioShuffle: bool, rebuilt: Option<Session>)
    requires Invariant(s)
    ensures Invariant(StopRadio(s, radioShuffle, rebuilt))
  {
    NewRequest(s, StopRadio(s, radioShuffle, rebuilt));
  }

  lemma StartKeeps(s: Core, batchSize: int, refillThreshold: int, signals: seq<Signal>)
    requires Invariant(s)
    ensures Invariant(StartRadio(s, batchSize, refillThreshold, signals))
  {
    HandleAllReacts(OpenSeeded(s, batchSize, refillThreshold), signals);
    var t := StartRadio(s, batchSize, refillThreshold, signals);
    forall w ensures !CurrentWorker(t, w) {
      if w in s.workers {
        assert s.workers[w].requestId <= s.requestId;
      }
    }
  }

  lemma ArtistKeeps(s: Core, session: Session, representative: Path, batchSize: int, signals: seq<Signal>)
    requires Invariant(s)
    ensures Invariant(StartArtist(s, session, representative, batchSize, signals))
  {
    var ready := OpenWith(s, session, {representative}, batchSize);
    HandleAllReacts(ready, signals);
    var played := HandleAll(ready, signals).(topUpInProgress := false);
    NewRequest(s, played);
    AppendKeeps(played, played.batchSize - 1);
  }

  lemma PoolKeeps(s: Core, session: Session, picks: seq<Path>, batchSize: int, signals: seq<Signal>)
    requires Invariant(s)
    ensures Invariant(StartPool(s, session, picks, batchSize, signals))
  {
    HandleAllReacts(OpenWith(s, session, (set p | p in picks && p != ""), batchSize), signals);
    NewRequest(s, StartPool(s, session, picks, batchSize, signals));
  }

  /** Installing a prepared session for the current start, and beginning its first batch. */
  lemma PreparedKeeps(run: Core, session: Session, current: Path, note: Note)
    requires Invariant(run.(loading := false)) && run.radioActive && !run.topUpInProgress
    requires run.requestId !in run.pendingStarts
    ensures var noted := Noted(run, session, current, note);
            Invariant(noted.(loading := false)) && Invariant(AppendBatch(noted.(loading := false), noted.batchSize - 1))
  {
    var before, noted := run.(loading := false), Noted(run, session, current, note).(loading := false);
    forall w ensures !CurrentWorker(noted, w) {
      assert CurrentWorker(noted, w) ==> CurrentWorker(before, w);
    }
    AppendKeeps(noted, noted.batchSize - 1);
  }

  lemma FinishKeeps(s: Core, id: nat, outcome: StartOutcome)
    requires Invariant(s) && id in s.pendingStarts
    ensures Invariant(FinishSeededStart(s, id, outcome))
  {
    var run := s.(pendingStarts := s.pendingStarts - {id});
    PendingRemoved(s, id);
    if id == s.requestId {
      match outcome
      case SeedsGone(radioShuffle, rebuilt) =>
        NewRequest(run.(loading := false), StopRadio(run, radioShuffle, rebuilt));
      case Prepared(session, current, note) =>
        PreparedKeeps(run, session, current, note);
    }
  }

  lemma PendingRemoved(s: Core, id: nat)
    requires Invariant(s) && id in s.pendingStarts
    ensures var run := s.(pendingStarts := s.pendingStarts - {id});
            Invariant(if id == s.requestId then run.(loading := false) else run)
  {
    var run := s.(pendingStarts := s.pendingStarts - {id});
    var quiet := run.(loading := false);
    forall w ensures (CurrentWorker(run, w) <==> CurrentWorker(s, w)) && (CurrentWorker(quiet, w) <==> CurrentWorker(s, w)) {
    }
  }

  lemma RefreshKeeps(s: Core, row: int, signals: seq<Signal>)
    requires Invariant(s)
    ensures Invariant(RefreshBelow(s, row, signals))
  {
    if CanRefresh(s, row) {
      var stale := StaleBelow(s, row);
      var unmarked := s.(picks := s.picks - set p | p in stale);
      HandleAllReacts(unmarked, signals);
      ReactKeeps(s, HandleAll(unmarked, signals));
      AppendKeeps(HandleAll(unmarked, signals), |stale|);
    }
  }

  /** Taking a finished worker of the current request out of flight leaves no other. */
  lemma Landed(s: Core, id: nat)
    requires Invariant(s) && CurrentWorker(s, id)
    ensures var free := s.(workers := s.workers - {id}, topUpInProgress := false);
            Invariant(free.(loading := false)) && (forall w :: !CurrentWorker(free, w)) &&
            s.requestId !in s.pendingStarts
  {
    var free := s.(workers := s.workers - {id}, topUpInProgress := false);
    var quiet := free.(loading := false);
    forall w ensures !CurrentWorker(free, w) && !CurrentWorker(quiet, w) {
      assert CurrentWorker(free, w) ==> CurrentWorker(s, w);
      assert CurrentWorker(quiet, w) ==> CurrentWorker(s, w);
    }
    assert s.topUpInProgress;
  }

  lemma InstallReacts(s: Core, result: BatchResult, signals: seq<Signal>, retain: Retain)
    requires s.radioActive && !s.shuffleSession && s.session.Some?
    ensures Reacts(s.(loading := false), Install(s, result, signals, retain))
  {
    var installed := s.(session := Some(result.session), sessionRevision := s.sessionRevision + 1,
                        picks := s.picks + set p | p in result.picks);
    HandleAllReacts(installed, signals);
    var prepared := HandleAll(installed, signals);
    HandleReacts(prepared, QueueChanged(prepared.queue + result.picks, prepared.queueIndex, retain));
  }

  lemma CompleteKeeps(s: Core, id: nat, score: Score, signals: seq<Signal>, retain: Retain)
    requires Invariant(s) && id in s.workers
    ensures Invariant(Complete(s, id, score, signals, retain))
  {
    var w := s.workers[id];
    var landed := s.(workers := s.workers - {id});
    if w.requestId != s.requestId {
      forall x ensures CurrentWorker(landed, x) <==> CurrentWorker(s, x) {
      }
    } else {
      assert CurrentWorker(s, id);
      Landed(s, id);
      var free := landed.(topUpInProgress := false);
      var quiet := free.(loading := false);
      if Stale(free, w) || !free.radioActive || free.session.None? {
        TopUpKeeps(quiet);
        assert Discard(free) == MaybeTopUp(quiet);
      } else {
        var result := score(w.snapshot, w.queued, PendingPicks(free));
        InstallReacts(free, result, signals, retain);
        ReactKeeps(quiet, Install(free, result, signals, retain));
      }
    }
  }

  lemma StepKeeps(s: Core, e: Event)
    requires Invariant(s) && Enabled(s, e)
    ensures Invariant(Step(s, e))
  {
    match e
    case Player(signals) =>
      HandleAllReacts(s, signals);
      ReactKeeps(s, HandleAll(s, signals));
    case TopUpTimer => TimerKeeps(s);
    case SetRefillThreshold(value) => ThresholdKeeps(s, value);
    case SetBatchSize(value) => ReactKeeps(s, s.(batchSize := Clamp(value, 1, 100)));
    case ChangeSession(change) => ReactKeeps(s, Mutate(s, change));
    case ForgetPicks(paths) => ReactKeeps(s, s.(picks := s.picks - paths));
    case Refresh(row, signals) => RefreshKeeps(s, row, signals);
    case Start(batchSize, refillThreshold, signals) => StartKeeps(s, batchSize, refillThreshold, signals);
    case StartFinished(id, outcome) => FinishKeeps(s, id, outcome);
    case ArtistStart(session, representative, batchSize, signals) =>
      ArtistKeeps(s, session, representative, batchSize, signals);
    case PoolStart(session, picks, batchSize, signals) => PoolKeeps(s, session, picks, batchSize, signals);
    case Stop(radioShuffle, rebuilt) => StopKeeps(s, radioShuffle, rebuilt);
    case WorkerFinished(worker, score, signals, retain) => CompleteKeeps(s, worker, score, signals, retain);
  }

  lemma FreshIsInvariant(s: Core)
    requires Fresh(s)
    ensures Invariant(s)
  {
    assert forall id :: !CurrentWorker(s, id);
  }

  /**
    The control invariant holds in every state of every run: at most one worker
    carries the current request id, the in-progress flag is set exactly when there
    is one, and loading is shown exactly when there is one or a start is pending.
  */
  lemma {:induction false} RunKeepsInvariant(trace: seq<Core>, events: seq<Event>, i: nat)
    requires IsRun(trace, events) && i <= |events|
    ensures Invariant(trace[i])
    decreases i
  {
    if i == 0 {
      FreshIsInvariant(trace[0]);
    } else {
      RunKeepsInvariant(trace, events, i - 1);
      assert Enabled(trace[i - 1], events[i - 1]) && trace[i] == Step(trace[i - 1], events[i - 1]);
      StepKeeps(trace[i - 1], events[i - 1]);
    }
  }

  // ---- no lost update --------------------------------------------------------

  /**
    A copy is installed only over the session it was taken from, with the queue
    it excludes still in place.
  */
  lemma InstalledCopyIsCurrent(s: Core, id: nat)
    requires Invariant(s) && CurrentWorker(s, id) && !Stale(s, s.workers[id])
    ensures s.session == Some(s.workers[id].snapshot) && s.queue == s.workers[id].queued
  {
  }

  /** Completing late with the copy is completing at once with the live session. */
  lemma StepIsAtomic(s: Core, e: Event)
    requires Invariant(s) && Enabled(s, e)
    ensures Step(s, e) == AtomicStep(s, e)
  {
    if e.WorkerFinished? {
      var w := s.workers[e.worker];
      if w.requestId == s.requestId {
        assert CurrentWorker(s, e.worker);
        assert Tracks(s, w);
      }
    }
  }

  /** Over a whole run: the protocol with workers and copies is the one that scores batches on the spot. */
  lemma RunIsAtomic(trace: seq<Core>, events: seq<Event>)
    requires IsRun(trace, events)
    ensures forall i :: 0 <= i < |events| ==>
              Enabled(trace[i], events[i]) && trace[i + 1] == AtomicStep(trace[i], events[i])
  {
    forall i | 0 <= i < |events|
      ensures Enabled(trace[i], events[i]) && trace[i + 1] == AtomicStep(trace[i], events[i])
    {
      RunKeepsInvariant(trace, events, i);
      assert Enabled(trace[i], events[i]) && trace[i + 1] == Step(trace[i], events[i]);
      StepIsAtomic(trace[i], events[i]);
    }
  }

  /** A completion stamped with a superseded request id changes nothing but what is in flight. */
  lemma SupersededChangesNothing(s: Core, id: nat, score: Score, signals: seq<Signal>, retain: Retain)
    requires id in s.workers && s.workers[id].requestId != s.requestId
    ensures Complete(s, id, score, signals, retain).(workers := s.workers) == s
    ensures Complete(s, id, score, signals, retain).workers == s.workers - {id}
  {
  }
}
