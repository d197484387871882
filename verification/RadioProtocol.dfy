/**
  The asynchronous radio batch protocol.

  A worker scores a batch on a copy of the session while the event loop keeps
  changing the live session and the queue.  This module states every step as a
  function of the state.
*/
module RadioProtocol {
  import opened Wrappers

  /** The radio session: opaque, compared and copied as a value. */
  type Session(==, !new)

  type Path = string

  /** What a scored batch leaves behind: the advanced session and the resolved picks. */
  datatype BatchResult = BatchResult(session: Session, picks: seq<Path>)

  /** A batch in flight: the stamps, the copied session and the queue it excludes. */
  datatype Worker = Worker(requestId: nat, sessionRevision: nat, queueRevision: nat,
                           snapshot: Session, queued: seq<Path>, count: nat)

  datatype Core = Core(
    requestId: nat, sessionRevision: nat, queueRevision: nat,
    topUpInProgress: bool, loading: bool,
    session: Option<Session>, radioActive: bool, shuffleSession: bool,
    batchSize: int, refillThreshold: int,
    queue: seq<Path>, queueIndex: int, picks: set<Path>,
    workers: map<nat, Worker>, nextWorker: nat, pendingStarts: set<nat>, timers: nat)

  type Retain = (Session, seq<Path>) -> Session

  type Note = (Session, Path) -> Session

  /** What the player announces synchronously; the functions stand for the opaque session methods. */
  datatype Signal =
    | QueueChanged(queue: seq<Path>, queueIndex: int, retain: Retain)
    | IndexChanged(queueIndex: int)
    | TrackStarted(path: Path, note: Note, retain: Retain)
    | ProviderCalled(next: Session -> BatchResult, markPicks: bool)
    | ShuffleSynced(radioShuffle: bool, rebuilt: Option<Session>)

  /** The value of the range nearest to x. */
  function Clamp(x: int, low: int, high: int): (r: int)
    requires low <= high
    ensures low <= r <= high && (x < low ==> r == low) && (low <= x <= high ==> r == x) && (x > high ==> r == high)
  {
    if x < low then low else if x > high then high else x
  }

  // ---- handlers of player signals --------------------------------------------

  /** The radio picks queued after the current row, in queue order. */
  function PendingPicks(s: Core): seq<Path> {
    PicksFrom(s, if s.queueIndex + 1 > 0 then s.queueIndex + 1 else 0)
  }

  function PicksFrom(s: Core, row: nat): seq<Path>
    decreases |s.queue| - row
  {
    if row >= |s.queue| then [] else
      (if s.queue[row] in s.picks then [s.queue[row]] else []) + PicksFrom(s, row + 1)
  }

  function ReconcilePending(s: Core, retain: Retain): Core {
    if s.session.None? || !s.radioActive then s else
      var after := retain(s.session.value, PendingPicks(s));
      if after != s.session.value
      then s.(session := Some(after), sessionRevision := s.sessionRevision + 1)
      else s
  }

  function SyncShuffle(s: Core, radioShuffle: bool, rebuilt: Option<Session>): Core {
    if !radioShuffle || s.radioActive then
      if s.shuffleSession then s.(shuffleSession := false, session := None) else s
    else
      s.(session := rebuilt, shuffleSession := rebuilt.Some?)
  }

  function CallProvider(s: Core, next: Session -> BatchResult, markPicks: bool): Core {
    if s.session.None? then s else
      var r := next(s.session.value);
      var mutated := r.picks != [] || r.session != s.session.value;
      s.(session := Some(r.session),
         sessionRevision := if mutated then s.sessionRevision + 1 else s.sessionRevision,
         picks := if markPicks then s.picks + (set p | p in r.picks && p != "") else s.picks)
  }

  function Handle(s: Core, signal: Signal): Core {
    match signal
    case QueueChanged(queue, queueIndex, retain) =>
      var moved := s.(queue := queue, queueIndex := queueIndex,
                      queueRevision := if s.radioActive then s.queueRevision + 1 else s.queueRevision);
      ReconcilePending(moved, retain)
    case IndexChanged(queueIndex) => s.(queueIndex := queueIndex, timers := s.timers + 1)
    case TrackStarted(path, note, retain) =>
      if s.session.Some? && (s.radioActive || s.shuffleSession) then
        ReconcilePending(s.(session := Some(note(s.session.value, path)),
                            sessionRevision := s.sessionRevision + 1), retain)
      else s
    case ProviderCalled(next, markPicks) => CallProvider(s, next, markPicks)
    case ShuffleSynced(radioShuffle, rebuilt) => SyncShuffle(s, radioShuffle, rebuilt)
  }

  function HandleAll(s: Core, signals: seq<Signal>): Core
    decreases |signals|
  {
    if signals == [] then s else HandleAll(Handle(s, signals[0]), signals[1..])
  }

  // ---- commands and callbacks ------------------------------------------------

  function AppendBatch(s: Core, count: int): Core {
    if s.session.None? || count <= 0 || s.topUpInProgress then s else
      s.(topUpInProgress := true, loading := true,
         workers := s.workers[s.nextWorker := Worker(s.requestId, s.sessionRevision, s.queueRevision,
                                                     s.session.value, s.queue, count)],
         nextWorker := s.nextWorker + 1)
  }

  function MaybeTopUp(s: Core): Core {
    if s.topUpInProgress || s.session.None? || !s.radioActive || s.batchSize <= 1 then s
    else if |s.queue| - 1 - s.queueIndex > s.refillThreshold then s
    else AppendBatch(s, s.batchSize)
  }

  /** A queued refill check; every index change queues one. */
  function FireTimer(s: Core): Core
    requires s.timers > 0
  {
    MaybeTopUp(s.(timers := s.timers - 1))
  }

  /** Radio switched off, under a new request id. */
  function TornDown(s: Core): Core {
    s.(requestId := s.requestId + 1, queueRevision := s.queueRevision + 1, topUpInProgress := false,
       loading := false, radioActive := false, session := None, picks := {})
  }

  function StopRadio(s: Core, radioShuffle: bool, rebuilt: Option<Session>): Core {
    SyncShuffle(TornDown(s), radioShuffle, rebuilt)
  }

  /** A seeded request opened: active, without a session yet. */
  function OpenSeeded(s: Core, batchSize: int, refillThreshold: int): Core {
    s.(requestId := s.requestId + 1, queueRevision := s.queueRevision + 1, session := None, picks := {},
       shuffleSession := false, batchSize := Clamp(batchSize, 1, 100),
       refillThreshold := Clamp(refillThreshold, 0, 100), radioActive := true, topUpInProgress := false)
  }

  function StartRadio(s: Core, batchSize: int, refillThreshold: int, signals: seq<Signal>): Core {
    var migrated := HandleAll(OpenSeeded(s, batchSize, refillThreshold), signals);
    migrated.(loading := true, pendingStarts := migrated.pendingStarts + {s.requestId + 1})
  }

  datatype StartOutcome =
    | SeedsGone(radioShuffle: bool, rebuilt: Option<Session>)
    | Prepared(session: Session, current: Path, note: Note)

  /** The state a prepared session is installed in, told of the track that is playing. */
  function Noted(s: Core, session: Session, current: Path, note: Note): Core {
    if current != ""
    then s.(session := Some(note(session, current)), sessionRevision := s.sessionRevision + 1)
    else s.(session := Some(session))
  }

  /** What the outcome of the current start does. */
  function Started(run: Core, outcome: StartOutcome): Core {
    match outcome
    case SeedsGone(radioShuffle, rebuilt) => StopRadio(run, radioShuffle, rebuilt)
    case Prepared(session, current, note) =>
      var noted := Noted(run, session, current, note);
      if noted.batchSize > 1 then AppendBatch(noted, noted.batchSize - 1) else noted.(loading := false)
  }

  function FinishSeededStart(s: Core, id: nat, outcome: StartOutcome): Core {
    var run := s.(pendingStarts := s.pendingStarts - {id});
    if id != s.requestId || !s.radioActive then run else Started(run, outcome)
  }

  /** A request opened on a session at hand; the in-progress flag holds refills off while the queue is replaced. */
  function OpenWith(s: Core, session: Session, picks: set<Path>, batchSize: int): Core {
    s.(requestId := s.requestId + 1, queueRevision := s.queueRevision + 1, loading := false,
       batchSize := Clamp(batchSize, 1, 100), picks := picks, shuffleSession := false,
       session := Some(session), radioActive := true, topUpInProgress := true)
  }

  function StartArtist(s: Core, session: Session, representative: Path, batchSize: int, signals: seq<Signal>): Core {
    var played := HandleAll(OpenWith(s, session, {representative}, batchSize), signals).(topUpInProgress := false);
    if played.batchSize > 1 then AppendBatch(played, played.batchSize - 1) else played
  }

  function StartPool(s: Core, session: Session, picks: seq<Path>, batchSize: int, signals: seq<Signal>): Core {
    HandleAll(OpenWith(s, session, (set p | p in picks && p != ""), batchSize), signals).(topUpInProgress := false)
  }

  /** A direct change of the live session: exploration, adventurousness or profile. */
  function Mutate(s: Core, change: Session -> Session): Core {
    if s.session.None? then s
    else s.(session := Some(change(s.session.value)), sessionRevision := s.sessionRevision + 1)
  }

  /** The queued picks below a row. */
  function StaleBelow(s: Core, row: int): seq<Path> {
    if row + 1 < 0 then [] else PicksFrom(s, row + 1)
  }

  /** The row is queued at or after the current one, picks are queued below it, and no batch is in progress. */
  predicate CanRefresh(s: Core, row: int) {
    s.session.Some? && s.radioActive && !s.topUpInProgress && s.queueIndex <= row && 0 <= row < |s.queue| &&
    StaleBelow(s, row) != []
  }

  function RefreshBelow(s: Core, row: int, signals: seq<Signal>): Core {
    if !CanRefresh(s, row) then s
    else
      var stale := StaleBelow(s, row);
      AppendBatch(HandleAll(s.(picks := s.picks - set p | p in stale), signals), |stale|)
  }

  type Score = (Session, seq<Path>, seq<Path>) -> BatchResult

  /** Installing a scored batch and queueing its picks. */
  function Install(s: Core, result: BatchResult, signals: seq<Signal>, retain: Retain): Core {
    var installed := s.(session := Some(result.session), sessionRevision := s.sessionRevision + 1,
                        picks := s.picks + set p | p in result.picks);
    var injected := if result.picks == [] then installed else
                      var prepared := HandleAll(installed, signals);
                      Handle(prepared, QueueChanged(prepared.queue + result.picks, prepared.queueIndex, retain));
    injected.(loading := false)
  }

  /** The worker's stamps no longer match: another batch or none. */
  function Discard(s: Core): Core {
    if s.radioActive && s.session.Some? then
      var again := MaybeTopUp(s);
      if again.topUpInProgress then again else again.(loading := false)
    else
      s.(loading := false)
  }

  predicate Stale(s: Core, w: Worker) {
    w.sessionRevision != s.sessionRevision || w.queueRevision != s.queueRevision
  }

  /** What a finished worker of the current request does. */
  function Settled(landed: Core, w: Worker, score: Score, signals: seq<Signal>, retain: Retain): Core {
    var free := landed.(topUpInProgress := false);
    if Stale(free, w) || !free.radioActive || free.session.None? then Discard(free)
    else Install(free, score(w.snapshot, w.queued, PendingPicks(free)), signals, retain)
  }

  /** A worker has finished; `score` is what it computed from its copy. */
  function Complete(s: Core, id: nat, score: Score, signals: seq<Signal>, retain: Retain): Core
    requires id in s.workers
  {
    var landed := s.(workers := s.workers - {id});
    if s.workers[id].requestId != s.requestId then landed
    else Settled(landed, s.workers[id], score, signals, retain)
  }

  /** The same completion with the batch scored on the live session, there and then. */
  function CompleteAtomically(s: Core, id: nat, score: Score, signals: seq<Signal>, retain: Retain): Core
    requires id in s.workers
  {
    var w := s.workers[id];
    var landed := s.(workers := s.workers - {id});
    if w.requestId != s.requestId then landed else
      var free := landed.(topUpInProgress := false);
      if Stale(free, w) || !free.radioActive || free.session.None? then Discard(free)
      else Install(free, score(free.session.value, free.queue, PendingPicks(free)), signals, retain)
  }

  // ---- runs ------------------------------------------------------------------

  datatype Event =
    | Player(signals: seq<Signal>)
    | TopUpTimer
    | SetRefillThreshold(value: int)
    | SetBatchSize(value: int)
    | ChangeSession(change: Session -> Session)
    | ForgetPicks(paths: set<Path>)
    | Refresh(row: int, signals: seq<Signal>)
    | Start(batchSize: int, refillThreshold: int, signals: seq<Signal>)
    | StartFinished(id: nat, outcome: StartOutcome)
    | ArtistStart(session: Session, representative: Path, batchSize: int, signals: seq<Signal>)
    | PoolStart(session: Session, startPicks: seq<Path>, batchSize: int, signals: seq<Signal>)
    | Stop(radioShuffle: bool, rebuilt: Option<Session>)
    | WorkerFinished(worker: nat, score: Score, signals: seq<Signal>, retain: Retain)

  /** Callbacks run only while they are pending. */
  ghost predicate Enabled(s: Core, e: Event) {
    (e.WorkerFinished? ==> e.worker in s.workers) &&
    (e.StartFinished? ==> e.id in s.pendingStarts) &&
    (e.TopUpTimer? ==> s.timers > 0)
  }

  ghost function Step(s: Core, e: Event): Core
    requires Enabled(s, e)
  {
    match e
    case Player(signals) => HandleAll(s, signals)
    case TopUpTimer => FireTimer(s)
    case SetRefillThreshold(value) => MaybeTopUp(s.(refillThreshold := Clamp(value, 0, 100)))
    case SetBatchSize(value) => s.(batchSize := Clamp(value, 1, 100))
    case ChangeSession(change) => Mutate(s, change)
    case ForgetPicks(paths) => s.(picks := s.picks - paths)
    case Refresh(row, signals) => RefreshBelow(s, row, signals)
    case Start(batchSize, refillThreshold, signals) => StartRadio(s, batchSize, refillThreshold, signals)
    case StartFinished(id, outcome) => FinishSeededStart(s, id, outcome)
    case ArtistStart(session, representative, batchSize, signals) =>
      StartArtist(s, session, representative, batchSize, signals)
    case PoolStart(session, picks, batchSize, signals) => StartPool(s, session, picks, batchSize, signals)
    case Stop(radioShuffle, rebuilt) => StopRadio(s, radioShuffle, rebuilt)
    case WorkerFinished(worker, score, signals, retain) => Complete(s, worker, score, signals, retain)
  }

  ghost function AtomicStep(s: Core, e: Event): Core
    requires Enabled(s, e)
  {
    if e.WorkerFinished? then CompleteAtomically(s, e.worker, e.score, e.signals, e.retain) else Step(s, e)
  }

  /** trace is a run of the protocol over the events. */
  ghost predicate IsRun(trace: seq<Core>, events: seq<Event>) {
    |trace| == |events| + 1 && Fresh(trace[0]) &&
    forall i :: 0 <= i < |events| ==> Enabled(trace[i], events[i]) && trace[i + 1] == Step(trace[i], events[i])
  }

  /** The state the constructor leaves: idle, with a restored session or without. */
  ghost predicate Fresh(s: Core) {
    s.workers == map[] && s.pendingStarts == {} && s.timers == 0 && !s.topUpInProgress && !s.loading &&
    (s.radioActive ==> !s.shuffleSession)
  }
}
