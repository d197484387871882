/**
  The radio part of the application core: the fields, the player handlers and
  the event-loop callbacks.  Every entry point keeps the control invariant,
  achieves what its contract names, and does exactly the step of `RadioProtocol`
  that the results about whole runs speak of.
*/
module AppCore {
  import opened Wrappers
  import opened RadioProtocol
  import opened RadioSafety
  import opened RadioEffects
  import opened RadioOutcomes

  class RadioController {
    var requestId: nat
    var sessionRevision: nat
    var queueRevision: nat
    var topUpInProgress: bool
    var loading: bool
    var session: Option<Session>
    var radioActive: bool
    var shuffleSession: bool
    var batchSize: int
    var refillThreshold: int
    var queue: seq<Path>
    var queueIndex: int
    var picks: set<Path>
    var workers: map<nat, Worker>
    var nextWorker: nat
    var pendingStarts: set<nat>
    var timers: nat

    /** The state of the protocol. */
    function State(): Core
      reads this
    {
      Core(requestId, sessionRevision, queueRevision, topUpInProgress, loading, session, radioActive, shuffleSession,
           batchSize, refillThreshold, queue, queueIndex, picks, workers, nextWorker, pendingStarts, timers)
    }

    /** The control invariant. */
    ghost predicate Valid()
      reads this
    {
      Invariant(State())
    }

    /** Starts idle, on a restored session if there is one. */
    constructor (restored: Option<Session>, queue: seq<Path>, queueIndex: int, picks: set<Path>)
      ensures Fresh(State()) && Valid()
      ensures this.session == restored && radioActive == restored.Some?
    {
      requestId, sessionRevision, queueRevision := 0, 0, 0;
      topUpInProgress, loading := false, false;
      session, radioActive, shuffleSession := restored, restored.Some?, false;
      batchSize, refillThreshold := 15, 5;
      this.queue, this.queueIndex, this.picks := queue, queueIndex, picks;
      workers, nextWorker, pendingStarts, timers := map[], 0, {}, 0;
      new;
      FreshIsInvariant(State());
    }

    // ---- handlers of player signals; a call in progress may run them between two statements ----

    /** The session forgets pending picks that left the queue, and the revision tells exactly whether it changed. */
    method ReconcileRadioPendingState(retain: Retain)
      modifies this`session, this`sessionRevision
      ensures State() == ReconcilePending(old(State()), retain)
      ensures session == if old(session).Some? && radioActive
                         then Some(Retained(old(session).value, queue, queueIndex, picks, retain)) else old(session)
      ensures session == old(session) <==> sessionRevision == old(sessionRevision)
      ensures Reacts(old(State()), State()) && (old(Valid()) ==> Valid())
    {
      ghost var before := State();
      ReconcileMeans(before, retain);
      if session.Some? && radioActive {
        var after := retain(session.value, PendingPicks(State()));
        if after != session.value {
          session := Some(after);
          sessionRevision := sessionRevision + 1;
        }
      }
      KeepsIfReacts(before, State());
    }

    /**
      Afterwards there is a shuffle session exactly when shuffle is in radio mode,
      no radio runs and a session could be built; a running radio is left alone.
    */
    method SyncRadioShuffleSession(radioShuffle: bool, rebuilt: Option<Session>)
      modifies this`session, this`shuffleSession
      ensures State() == SyncShuffle(old(State()), radioShuffle, rebuilt)
      ensures shuffleSession <==> radioShuffle && !radioActive && rebuilt.Some?
      ensures shuffleSession ==> session == rebuilt
      ensures !shuffleSession ==>
        session == if old(shuffleSession) || (radioShuffle && !radioActive) then None else old(session)
      ensures old(radioActive && !shuffleSession) ==> session == old(session)
      ensures Reacts(old(State()), State()) && (old(Valid()) ==> Valid())
    {
      ghost var before := State();
      if !radioShuffle || radioActive {
        if shuffleSession {
          shuffleSession := false;
          session := None;
        }
      } else if rebuilt.None? {
        shuffleSession := false;
        session := None;
      } else {
        session := rebuilt;
        shuffleSession := true;
      }
      KeepsIfReacts(before, State());
    }

    /** While radio is active, every queue change outdates the batches in flight. */
    method OnQueueChanged(newQueue: seq<Path>, newIndex: int, retain: Retain)
      modifies this`queue, this`queueIndex, this`queueRevision, this`session, this`sessionRevision
      ensures State() == Handle(old(State()), QueueChanged(newQueue, newIndex, retain))
      ensures queue == newQueue && queueIndex == newIndex
      ensures session == if old(session).Some? && radioActive
                         then Some(Retained(old(session).value, queue, queueIndex, picks, retain)) else old(session)
      ensures radioActive ==> queueRevision > old(queueRevision)
      ensures session == old(session) <==> sessionRevision == old(sessionRevision)
      ensures Reacts(old(State()), State()) && (old(Valid()) ==> Valid())
    {
      ghost var before := State();
      QueueChangeMeans(before, newQueue, newIndex, retain);
      QueueChangeOutdates(before, newQueue, newIndex, retain);
      HandleReacts(before, QueueChanged(newQueue, newIndex, retain));
      KeepsIfReacts(before, Handle(before, QueueChanged(newQueue, newIndex, retain)));
      TakeQueue(newQueue, newIndex, retain);
    }

    method TakeQueue(newQueue: seq<Path>, newIndex: int, retain: Retain)
      modifies this`queue, this`queueIndex, this`queueRevision, this`session, this`sessionRevision
      ensures State() == Handle(old(State()), QueueChanged(newQueue, newIndex, retain))
    {
      queue, queueIndex := newQueue, newIndex;
      if radioActive {
        queueRevision := queueRevision + 1;
      }
      ReconcileRadioPendingState(retain);
    }

    /** An index change queues one refill check. */
    method OnIndexChanged(newIndex: int)
      modifies this`queueIndex, this`timers
      ensures State() == Handle(old(State()), IndexChanged(newIndex))
      ensures queueIndex == newIndex && timers == old(timers) + 1 && (old(Valid()) ==> Valid())
    {
      ghost var before := State();
      queueIndex := newIndex;
      timers := timers + 1;
      KeepsIfReacts(before, State());
    }

    /** A track the radio session hears of outdates the batches in flight. */
    method OnTrackStarted(path: Path, note: Note, retain: Retain)
      modifies this`session, this`sessionRevision
      ensures State() == Handle(old(State()), TrackStarted(path, note, retain))
      ensures old(session).Some? && (radioActive || shuffleSession) ==>
        var noted := note(old(session).value, path);
        session == Some(if radioActive then Retained(noted, queue, queueIndex, picks, retain) else noted)
      ensures old(session).Some? && (radioActive || shuffleSession) ==> sessionRevision > old(sessionRevision)
      ensures sessionRevision == old(sessionRevision) ==> session == old(session)
      ensures Reacts(old(State()), State()) && (old(Valid()) ==> Valid())
    {
      ghost var before := State();
      TrackStartMeans(before, path, note, retain);
      HandleReacts(before, TrackStarted(path, note, retain));
      KeepsIfReacts(before, Handle(before, TrackStarted(path, note, retain)));
      NoteTrack(path, note, retain);
    }

    method NoteTrack(path: Path, note: Note, retain: Retain)
      modifies this`session, this`sessionRevision
      ensures State() == Handle(old(State()), TrackStarted(path, note, retain))
    {
      if session.Some? && (radioActive || shuffleSession) {
        session := Some(note(session.value, path));
        sessionRevision := sessionRevision + 1;
        ReconcileRadioPendingState(retain);
      }
    }

    /** Remembers the provided paths, empty ones aside, as radio picks. */
    method MarkPicks(provided: seq<Path>)
      modifies this`picks
      ensures picks == old(picks) + set p | p in provided && p != ""
    {
      var k := 0;
      while k < |provided|
        invariant k <= |provided|
        invariant picks == old(picks) + set p | p in provided[..k] && p != ""
      {
        assert provided[..k + 1] == provided[..k] + [provided[k]];
        if provided[k] != "" {
          picks := picks + {provided[k]};
        }
        k := k + 1;
      }
      assert provided[..|provided|] == provided;
    }

    /** Lets the session pick, and counts the change if it made one. */
    method Draw(next: Session -> BatchResult) returns (provided: seq<Path>)
      modifies this`session, this`sessionRevision
      ensures State() == CallProvider(old(State()), next, false)
      ensures provided == if old(session).Some? then next(old(session).value).picks else []
    {
      if session.None? {
        return [];
      }
      var before := session.value;
      var r := next(before);
      session := Some(r.session);
      provided := r.picks;
      var mutated := provided != [] || r.session != before;
      if mutated {
        sessionRevision := sessionRevision + 1;
      }
    }

    /** A just-in-time pick leaves the revision alone only if it picked nothing and left the session as it was. */
    method ProvideTracks(next: Session -> BatchResult, markPicks: bool) returns (provided: seq<Path>)
      modifies this`session, this`sessionRevision, this`picks
      ensures State() == Handle(old(State()), ProviderCalled(next, markPicks))
      ensures old(session).Some? ==>
        session == Some(next(old(session).value).session) && provided == next(old(session).value).picks
      ensures picks == old(picks) + if markPicks then (set p | p in provided && p != "") else {}
      ensures sessionRevision == old(sessionRevision) <==> provided == [] && session == old(session)
      ensures Reacts(old(State()), State()) && (old(Valid()) ==> Valid())
    {
      ghost var before := State();
      ProviderMeans(before, next, markPicks);
      HandleReacts(before, ProviderCalled(next, markPicks));
      KeepsIfReacts(before, Handle(before, ProviderCalled(next, markPicks)));
      provided := Provide(next, markPicks);
    }

    method Provide(next: Session -> BatchResult, markPicks: bool) returns (provided: seq<Path>)
      modifies this`session, this`sessionRevision, this`picks
      ensures State() == CallProvider(old(State()), next, markPicks)
      ensures provided == if old(session).Some? then next(old(session).value).picks else []
    {
      provided := Draw(next);
      if markPicks {
        MarkPicks(provided);
      }
    }

    method OnSignal(signal: Signal)
      modifies this
      ensures State() == Handle(old(State()), signal)
    {
      match signal
      case QueueChanged(newQueue, newIndex, retain) => OnQueueChanged(newQueue, newIndex, retain);
      case IndexChanged(newIndex) => OnIndexChanged(newIndex);
      case TrackStarted(path, note, retain) => OnTrackStarted(path, note, retain);
      case ProviderCalled(next, markPicks) => var _ := ProvideTracks(next, markPicks);
      case ShuffleSynced(radioShuffle, rebuilt) => SyncRadioShuffleSession(radioShuffle, rebuilt);
    }

    /** Runs the handlers of the signals a player call emits, in order. */
    method OnSignals(signals: seq<Signal>)
      modifies this
      ensures State() == HandleAll(old(State()), signals)
      ensures Reacts(old(State()), State()) && (old(Valid()) ==> Valid())
    {
      ghost var before := State();
      var k := 0;
      while k < |signals|
        invariant k <= |signals|
        invariant HandleAll(State(), signals[k..]) == HandleAll(before, signals)
      {
        ghost var rest := signals[k..];
        assert rest[0] == signals[k] && rest[1..] == signals[k + 1..];
        OnSignal(signals[k]);
        k := k + 1;
      }
      HandleAllReacts(before, signals);
      KeepsIfReacts(before, State());
    }

    // ---- batches -----------------------------------------------------------------

    method SetRadioLoading(value: bool)
      modifies this`loading
      ensures State() == old(State()).(loading := value)
    {
      if loading == value {
        return;
      }
      loading := value;
    }

    /** Begins a batch on a copy of the live session, unless there is none, or one is in progress. */
    method AppendRadioBatch(count: int)
      modifies this`workers, this`nextWorker, this`topUpInProgress, this`loading
      ensures State() == AppendBatch(old(State()), count)
      ensures old(session.Some? && count > 0 && !topUpInProgress) ==> BatchBegun(State(), count)
      ensures old(session.None? || count <= 0 || topUpInProgress) ==> State() == old(State())
      ensures old(Valid()) && radioActive ==> Valid()
    {
      ghost var before := State();
      if session.Some? && count > 0 && !topUpInProgress {
        workers := workers[nextWorker := Worker(requestId, sessionRevision, queueRevision, session.value, queue, count)];
        nextWorker := nextWorker + 1;
        topUpInProgress := true;
        SetRadioLoading(true);
        AppendBegins(before, count);
      }
      if Invariant(before) && radioActive {
        AppendKeeps(before, count);
      }
    }

    /** Begins a batch exactly when the queue has run down and none is in progress; touches nothing else. */
    method MaybeTopUpRadioQueue()
      modifies this`workers, this`nextWorker, this`topUpInProgress, this`loading
      ensures State() == MaybeTopUp(old(State()))
      ensures old(RunDown(State()) && !topUpInProgress) ==> BatchBegun(State(), batchSize)
      ensures old(!RunDown(State()) || topUpInProgress) ==> State() == old(State())
      ensures old(Valid()) ==> Valid()
    {
      ghost var before := State();
      if !topUpInProgress && session.Some? && radioActive {
        if batchSize > 1 {
          var remaining := |queue| - 1 - queueIndex;
          if remaining <= refillThreshold {
            AppendRadioBatch(batchSize);
          }
        }
      }
      TopUpBegins(before);
      if Invariant(before) {
        TopUpKeeps(before);
      }
    }

    /** The queued refill check. */
    method OnTopUpTimer()
      requires Valid() && timers > 0
      modifies this
      ensures Valid() && State() == FireTimer(old(State())) && timers == old(timers) - 1
      ensures session == old(session) && queue == old(queue)
      ensures RunDown(State()) ==> topUpInProgress
    {
      TimerKeeps(State());
      timers := timers - 1;
      MaybeTopUpRadioQueue();
    }

    /** Afterwards a queue that has run down under the new threshold is being refilled. */
    method SetRadioRefillThreshold(value: int)
      requires Valid()
      modifies this
      ensures Valid() && State() == Step(old(State()), SetRefillThreshold(value))
      ensures refillThreshold == Clamp(value, 0, 100) && session == old(session) && queue == old(queue)
      ensures RunDown(State()) ==> topUpInProgress
    {
      ThresholdKeeps(State(), value);
      refillThreshold := Clamp(value, 0, 100);
      MaybeTopUpRadioQueue();
    }

    method SetRadioBatchSize(value: int)
      requires Valid()
      modifies this`batchSize
      ensures Valid() && State() == Step(old(State()), SetBatchSize(value)) && batchSize == Clamp(value, 1, 100)
    {
      StepKeeps(State(), SetBatchSize(value));
      batchSize := Clamp(value, 1, 100);
    }

    /** A direct change of the session leaves nothing in flight that could still be installed. */
    method ChangeRadioSession(change: Session -> Session)
      requires Valid()
      modifies this`session, this`sessionRevision
      ensures Valid() && State() == Step(old(State()), ChangeSession(change))
      ensures session == if old(session).Some? then Some(change(old(session).value)) else None
      ensures session.Some? ==> forall id :: CurrentWorker(State(), id) ==> !Installable(State(), workers[id])
    {
      ghost var before := State();
      StepKeeps(before, ChangeSession(change));
      if session.Some? {
        session := Some(change(session.value));
        sessionRevision := sessionRevision + 1;
        forall id | CurrentWorker(State(), id) ensures !Installable(State(), workers[id]) {
          ChangeOutdates(before, change, id);
        }
      }
    }

    // ---- starting and stopping ---------------------------------------------------

    /** Supersedes whatever is in flight. */
    method NewRequest()
      modifies this`requestId, this`queueRevision
      ensures requestId == old(requestId) + 1 && queueRevision == old(queueRevision) + 1
    {
      requestId := requestId + 1;
      queueRevision := queueRevision + 1;
    }

    method TearDown()
      modifies this
      ensures State() == TornDown(old(State()))
    {
      NewRequest();
      topUpInProgress := false;
      SetRadioLoading(false);
      radioActive := false;
      session := None;
      picks := {};
    }

    method EndRadio(radioShuffle: bool, rebuilt: Option<Session>)
      modifies this
      ensures State() == StopRadio(old(State()), radioShuffle, rebuilt)
    {
      TearDown();
      SyncRadioShuffleSession(radioShuffle, rebuilt);
    }

    /** Everything in flight is superseded; radio is off, nothing loads, and no pick is remembered. */
    method StopRadioSession(radioShuffle: bool, rebuilt: Option<Session>)
      requires Valid()
      modifies this
      ensures Valid() && State() == Step(old(State()), Stop(radioShuffle, rebuilt))
      ensures Supersedes(old(State()), State()) && NoneCurrent(State())
      ensures !radioActive && !loading && picks == {} && (session.Some? ==> shuffleSession)
      ensures session == (if radioShuffle then rebuilt else None) && queue == old(queue)
    {
      StopMeans(State(), radioShuffle, rebuilt);
      StopKeeps(State(), radioShuffle, rebuilt);
      StopEnds(State(), radioShuffle, rebuilt);
      EndRadio(radioShuffle, rebuilt);
    }

    /** Hands the player over to explicit radio on a new session, or on none yet. */
    method ReplaceSession(built: Option<Session>, newPicks: set<Path>)
      modifies this`session, this`picks, this`shuffleSession, this`radioActive
      ensures session == built && picks == newPicks && !shuffleSession && radioActive
    {
      picks := newPicks;
      shuffleSession := false;
      session := built;
      radioActive := true;
    }

    method OpenSeededRequest(newBatchSize: int, newThreshold: int) returns (id: nat)
      modifies this
      ensures State() == OpenSeeded(old(State()), newBatchSize, newThreshold) && id == requestId
    {
      NewRequest();
      id := requestId;
      ReplaceSession(None, {});
      batchSize := Clamp(newBatchSize, 1, 100);
      refillThreshold := Clamp(newThreshold, 0, 100);
      topUpInProgress := false;
    }

    /** Supersedes everything in flight; radio is active without a session, and one start is pending for it. */
    method StartSeededRadio(newBatchSize: int, newThreshold: int, signals: seq<Signal>)
      requires Valid()
      modifies this
      ensures Valid() && State() == Step(old(State()), Start(newBatchSize, newThreshold, signals))
      ensures Supersedes(old(State()), State()) && NoneCurrent(State())
      ensures radioActive && session.None? && loading && requestId in pendingStarts
      ensures batchSize == Clamp(newBatchSize, 1, 100) && queue == QueueAfter(old(queue), signals)
      ensures signals == [] ==> picks == {} && refillThreshold == Clamp(newThreshold, 0, 100) && !shuffleSession
    {
      StartMeans(State(), newBatchSize, newThreshold, signals);
      StartKeeps(State(), newBatchSize, newThreshold, signals);
      StartOpens(State(), newBatchSize, newThreshold, signals);
      var id := OpenSeededRequest(newBatchSize, newThreshold);
      OnSignals(signals);
      SetRadioLoading(true);
      pendingStarts := pendingStarts + {id};
    }

    method CompleteStart(outcome: StartOutcome)
      modifies this
      ensures State() == Started(old(State()), outcome)
    {
      match outcome {
        case SeedsGone(radioShuffle, rebuilt) =>
          EndRadio(radioShuffle, rebuilt);
        case Prepared(prepared, current, note) =>
          InstallStart(prepared, current, note);
          FirstBatch();
      }
    }

    method InstallStart(prepared: Session, current: Path, note: Note)
      modifies this`session, this`sessionRevision
      ensures State() == Noted(old(State()), prepared, current, note)
    {
      session := Some(prepared);
      if current != "" {
        session := Some(note(prepared, current));
        sessionRevision := sessionRevision + 1;
      }
    }

    method FirstBatch()
      modifies this`workers, this`nextWorker, this`topUpInProgress, this`loading
      ensures State() == if batchSize > 1 then AppendBatch(old(State()), batchSize - 1) else old(State()).(loading := false)
    {
      if batchSize > 1 {
        AppendRadioBatch(batchSize - 1);
      } else {
        SetRadioLoading(false);
      }
    }

    /**
      A superseded start only stops pending.  The current one ends the radio if
      its seeds are gone; otherwise its session is live, and a first batch is on
      its way unless radio picks just in time.
    */
    method FinishSeededRadioStart(id: nat, outcome: StartOutcome)
      requires Valid() && id in pendingStarts
      modifies this
      ensures Valid() && State() == Step(old(State()), StartFinished(id, outcome))
      ensures id != old(requestId) ==> State() == old(State()).(pendingStarts := old(pendingStarts) - {id})
      ensures id == old(requestId) && outcome.SeedsGone? ==>
        Supersedes(old(State()), State()) && !radioActive && !loading
      ensures id == old(requestId) && outcome.Prepared? ==>
        requestId == id && session == Some(StartSession(outcome)) &&
        (if old(batchSize) > 1 then BatchBegun(State(), old(batchSize) - 1) else !loading && NoneCurrent(State()))
      ensures id == old(requestId) ==> queue == old(queue) && batchSize == old(batchSize)
      ensures id == old(requestId) && outcome.Prepared? ==> picks == old(picks) && radioActive
      ensures id == old(requestId) && outcome.SeedsGone? ==>
        picks == {} && session == if outcome.radioShuffle then outcome.rebuilt else None
    {
      if id == requestId {
        FinishMeans(State(), id, outcome);
      }
      FinishKeeps(State(), id, outcome);
      FinishStarts(State(), id, outcome);
      pendingStarts := pendingStarts - {id};
      if id != requestId || !radioActive {
        return;
      }
      CompleteStart(outcome);
    }

    method OpenRequestWith(built: Session, newPicks: set<Path>, newBatchSize: int)
      modifies this
      ensures State() == OpenWith(old(State()), built, newPicks, newBatchSize)
    {
      NewRequest();
      SetRadioLoading(false);
      batchSize := Clamp(newBatchSize, 1, 100);
      ReplaceSession(Some(built), newPicks);
      topUpInProgress := true;
    }

    /** Opens the request and replaces the queue, with refills held off meanwhile. */
    method PlayRequest(built: Session, newPicks: set<Path>, newBatchSize: int, signals: seq<Signal>)
      modifies this
      ensures State() == HandleAll(OpenWith(old(State()), built, newPicks, newBatchSize), signals).(topUpInProgress := false)
    {
      OpenRequestWith(built, newPicks, newBatchSize);
      OnSignals(signals);
      topUpInProgress := false;
    }

    /** Supersedes everything in flight; radio runs, and exactly one new batch is on its way unless it picks just in time. */
    method StartArtistRadio(built: Session, representative: Path, newBatchSize: int, signals: seq<Signal>)
      requires Valid()
      modifies this
      ensures Valid() && State() == Step(old(State()), ArtistStart(built, representative, newBatchSize, signals))
      ensures Supersedes(old(State()), State()) && radioActive && session.Some?
      ensures if batchSize > 1 then BatchBegun(State(), batchSize - 1) else !loading && NoneCurrent(State())
      ensures batchSize == Clamp(newBatchSize, 1, 100) && queue == QueueAfter(old(queue), signals)
      ensures representative in picks && (signals == [] ==> session == Some(built) && picks == {representative})
    {
      ArtistMeans(State(), built, representative, newBatchSize, signals);
      ArtistKeeps(State(), built, representative, newBatchSize, signals);
      ArtistStarts(State(), built, representative, newBatchSize, signals);
      PlayRequest(built, {representative}, newBatchSize, signals);
      if batchSize > 1 {
        AppendRadioBatch(batchSize - 1);
      }
    }

    /** Supersedes everything in flight; radio runs on the given picks, with no batch begun by replacing the queue. */
    method StartPoolRadio(built: Session, startPicks: seq<Path>, newBatchSize: int, signals: seq<Signal>)
      requires Valid()
      modifies this
      ensures Valid() && State() == Step(old(State()), PoolStart(built, startPicks, newBatchSize, signals))
      ensures Supersedes(old(State()), State()) && NoneCurrent(State())
      ensures radioActive && session.Some? && !loading
      ensures batchSize == Clamp(newBatchSize, 1, 100) && queue == QueueAfter(old(queue), signals)
      ensures forall p :: p in startPicks && p != "" ==> p in picks
      ensures signals == [] ==> session == Some(built) && forall p :: p in picks <==> p in startPicks && p != ""
    {
      PoolMeans(State(), built, startPicks, newBatchSize, signals);
      PoolKeeps(State(), built, startPicks, newBatchSize, signals);
      PoolStarts(State(), built, startPicks, newBatchSize, signals);
      PlayRequest(built, (set p | p in startPicks && p != ""), newBatchSize, signals);
    }

    /** Fetches as many new picks as were queued below the row, if any were and no batch is in progress. */
    method RefreshRadioPicksBelow(row: int, signals: seq<Signal>) returns (refreshed: bool)
      requires Valid()
      modifies this
      ensures Valid() && State() == Step(old(State()), Refresh(row, signals))
      ensures refreshed <==>
        old(session.Some? && radioActive && !topUpInProgress && queueIndex <= row && 0 <= row < |queue| &&
            Picked(RowsAfter(queue, row), picks) != [])
      ensures !refreshed ==> State() == old(State())
      ensures refreshed ==>
        BatchBegun(State(), |old(Picked(RowsAfter(queue, row), picks))|) && queue == QueueAfter(old(queue), signals)
      ensures refreshed && signals == [] ==>
        session == old(session) && Forgets(old(State()), State(), old(Picked(RowsAfter(queue, row), picks)))
    {
      RefreshMeans(State(), row, signals);
      RefreshKeeps(State(), row, signals);
      RefreshRefetches(State(), row, signals);
      if session.None? || !radioActive || topUpInProgress {
        return false;
      }
      if row < queueIndex || row < 0 || row >= |queue| {
        return false;
      }
      var stale := StaleBelow(State(), row);
      if stale == [] {
        return false;
      }
      picks := picks - set p | p in stale;
      OnSignals(signals);
      AppendRadioBatch(|stale|);
      refreshed := true;
    }

    // ---- the completion of a batch -------------------------------------------------

    method DiscardBatch()
      modifies this`workers, this`nextWorker, this`topUpInProgress, this`loading
      ensures State() == Discard(old(State()))
    {
      if radioActive && session.Some? {
        MaybeTopUpRadioQueue();
        if !topUpInProgress {
          SetRadioLoading(false);
        }
      } else {
        SetRadioLoading(false);
      }
    }

    method TakeCopy(result: BatchResult)
      modifies this`session, this`sessionRevision, this`picks
      ensures State() == old(State()).(session := Some(result.session),
                                       sessionRevision := old(sessionRevision) + 1,
                                       picks := old(picks) + set p | p in result.picks)
    {
      session := Some(result.session);
      sessionRevision := sessionRevision + 1;
      picks := picks + set p | p in result.picks;
    }

    method InstallBatch(result: BatchResult, signals: seq<Signal>, retain: Retain)
      modifies this
      ensures State() == Install(old(State()), result, signals, retain)
    {
      TakeCopy(result);
      if result.picks != [] {
        OnSignals(signals);
        OnQueueChanged(queue + result.picks, queueIndex, retain);
      }
      SetRadioLoading(false);
    }

    /**
      The completion callback of a batch worker.  A superseded one changes nothing
      but what is in flight; a stale one leaves session and queue alone; and one
      that installs its copy does so over the very session and queue it was taken
      from, with the result that scoring on the live session would have had.
    */
    method OnBatchFinished(id: nat, score: Score, signals: seq<Signal>, retain: Retain)
      requires Valid() && id in workers
      modifies this
      ensures Valid() && State() == Step(old(State()), WorkerFinished(id, score, signals, retain))
      ensures old(workers[id].requestId != requestId) ==> State() == old(State()).(workers := old(workers) - {id})
      ensures !old(Installable(State(), workers[id])) ==> session == old(session) && queue == old(queue)
      ensures old(Installable(State(), workers[id])) ==>
        old(session == Some(workers[id].snapshot) && queue == workers[id].queued) &&
        State() == CompleteAtomically(old(State()), id, score, signals, retain)
      ensures old(Installable(State(), workers[id])) ==>
        IsInstalled(old(State()), State(), old(Scored(State(), workers[id], score)), signals, retain)
      ensures old(workers[id].requestId == requestId && !Installable(State(), workers[id])) ==>
        (RunDown(State()) ==> topUpInProgress) && picks == old(picks)
    {
      CompletionOutcome(State(), id, score, signals, retain);
      CompleteKeeps(State(), id, score, signals, retain);
      CompletionMeans(State(), id, score, signals, retain);
      var w := workers[id];
      workers := workers - {id};
      if w.requestId == requestId {
        Settle(w, score, signals, retain);
      }
    }

    method Settle(w: Worker, score: Score, signals: seq<Signal>, retain: Retain)
      modifies this
      ensures State() == Settled(old(State()), w, score, signals, retain)
    {
      topUpInProgress := false;
      if w.sessionRevision != sessionRevision || w.queueRevision != queueRevision || !radioActive || session.None? {
        DiscardBatch();
        return;
      }
      var result := score(w.snapshot, w.queued, PendingPicks(State()));
      InstallBatch(result, signals, retain);
    }
  }
}
