/**
  What the steps leave in the queue, the picks and the session, said of those
  fields alone.
*/
module RadioOutcomes {
  import opened Wrappers
  import opened RadioProtocol
  import opened RadioSafety
  import opened RadioEffects

  /** The paths of the queue that are picks, in queue order. */
  function Picked(queue: seq<Path>, picks: set<Path>): seq<Path> {
    if queue == [] then []
    else
      var last := queue[|queue| - 1];
      Picked(queue[..|queue| - 1], picks) + if last in picks then [last] else []
  }

  /** The rows after the given one; all rows if there is none. */
  function RowsAfter(queue: seq<Path>, row: int): seq<Path> {
    if row < 0 then queue else if row < |queue| then queue[row + 1..] else []
  }

  lemma {:induction false} PickedParts(a: seq<Path>, b: seq<Path>, picks: set<Path>)
    ensures Picked(a + b, picks) == Picked(a, picks) + Picked(b, picks)
    decreases |b|
  {
    if b == [] {
      assert a + b == a;
    } else {
      assert (a + b)[..|a + b| - 1] == a + b[..|b| - 1];
      PickedParts(a, b[..|b| - 1], picks);
    }
  }

  lemma {:induction false} PicksFromAre(s: Core, row: nat)
    requires row <= |s.queue|
    ensures PicksFrom(s, row) == Picked(s.queue[row..], s.picks)
    decreases |s.queue| - row
  {
    if row < |s.queue| {
      PicksFromAre(s, row + 1);
      assert s.queue[row..] == [s.queue[row]] + s.queue[row + 1..];
      PickedParts([s.queue[row]], s.queue[row + 1..], s.picks);
      assert [s.queue[row]][..0] == [];
    }
  }

  /** The pending picks are the picks queued after the current row. */
  lemma PendingPicksAre(s: Core)
    ensures PendingPicks(s) == Picked(RowsAfter(s.queue, s.queueIndex), s.picks)
  {
    var row := if s.queueIndex + 1 > 0 then s.queueIndex + 1 else 0;
    if row <= |s.queue| {
      PicksFromAre(s, row);
      assert s.queue[0..] == s.queue;
    }
  }

  lemma StaleBelowAre(s: Core, row: int)
    requires 0 <= row < |s.queue|
    ensures StaleBelow(s, row) == Picked(RowsAfter(s.queue, row), s.picks)
  {
    PicksFromAre(s, row + 1);
  }

  lemma {:induction false} PickedSome(queue: seq<Path>, picks: set<Path>)
    ensures Picked(queue, picks) != [] <==> exists k :: 0 <= k < |queue| && queue[k] in picks
    decreases |queue|
  {
    if queue != [] {
      var rest, last := queue[..|queue| - 1], queue[|queue| - 1];
      PickedSome(rest, picks);
      if k :| 0 <= k < |queue| && queue[k] in picks {
        assert k < |rest| ==> rest[k] in picks;
      }
      if k :| 0 <= k < |rest| && rest[k] in picks {
        assert queue[k] in picks;
      }
      assert last in picks ==> queue[|queue| - 1] in picks;
    }
  }

  // ---- signals ---------------------------------------------------------------------

  /** The queue the player is left with. */
  function QueueAfter(queue: seq<Path>, signals: seq<Signal>): seq<Path>
    decreases |signals|
  {
    if signals == [] then queue
    else
      var last := signals[|signals| - 1];
      if last.QueueChanged? then last.queue else QueueAfter(queue, signals[..|signals| - 1])
  }

  lemma {:induction false} QueueAfterFirst(queue: seq<Path>, signals: seq<Signal>)
    requires signals != []
    ensures QueueAfter(queue, signals) ==
            QueueAfter(if signals[0].QueueChanged? then signals[0].queue else queue, signals[1..])
    decreases |signals|
  {
    if |signals| > 1 {
      var shorter := signals[..|signals| - 1];
      QueueAfterFirst(queue, shorter);
      assert shorter[1..] == signals[1..][..|signals| - 2];
    } else {
      assert signals[..0] == [];
    }
  }

  lemma HandleQueue(s: Core, signal: Signal)
    ensures Handle(s, signal).queue == if signal.QueueChanged? then signal.queue else s.queue
    ensures s.picks <= Handle(s, signal).picks && Handle(s, signal).batchSize == s.batchSize
  {
  }

  lemma {:induction false} HandleAllQueue(s: Core, signals: seq<Signal>)
    ensures HandleAll(s, signals).queue == QueueAfter(s.queue, signals)
    ensures s.picks <= HandleAll(s, signals).picks && HandleAll(s, signals).batchSize == s.batchSize
    decreases |signals|
  {
    if signals != [] {
      HandleQueue(s, signals[0]);
      HandleAllQueue(Handle(s, signals[0]), signals[1..]);
      QueueAfterFirst(s.queue, signals);
    }
  }

  /** The session a queue change or a started track leaves: told of the picks still queued. */
  function Retained(session: Session, queue: seq<Path>, queueIndex: int, picks: set<Path>, retain: Retain): Session {
    retain(session, Picked(RowsAfter(queue, queueIndex), picks))
  }

  lemma ReconcileMeans(s: Core, retain: Retain)
    ensures ReconcilePending(s, retain).session ==
            if s.session.Some? && s.radioActive
            then Some(Retained(s.session.value, s.queue, s.queueIndex, s.picks, retain)) else s.session
  {
    PendingPicksAre(s);
  }

  lemma QueueChangeMeans(s: Core, queue: seq<Path>, queueIndex: int, retain: Retain)
    ensures
      var t := Handle(s, QueueChanged(queue, queueIndex, retain));
      t.queue == queue && t.queueIndex == queueIndex && t.picks == s.picks &&
      t.session == if s.session.Some? && s.radioActive
                   then Some(Retained(s.session.value, queue, queueIndex, s.picks, retain)) else s.session
  {
    PendingPicksAre(s.(queue := queue, queueIndex := queueIndex,
                       queueRevision := if s.radioActive then s.queueRevision + 1 else s.queueRevision));
  }

  lemma TrackStartMeans(s: Core, path: Path, note: Note, retain: Retain)
    ensures
      var t := Handle(s, TrackStarted(path, note, retain));
      if s.session.Some? && (s.radioActive || s.shuffleSession) then
        var noted := note(s.session.value, path);
        t.session == Some(if s.radioActive then Retained(noted, s.queue, s.queueIndex, s.picks, retain) else noted) &&
        t.sessionRevision > s.sessionRevision
      else t == s
  {
    if s.session.Some? && (s.radioActive || s.shuffleSession) {
      PendingPicksAre(s.(session := Some(note(s.session.value, path)), sessionRevision := s.sessionRevision + 1));
    }
  }

  /** A call to the provider advances the session, and counts unless it did nothing. */
  lemma ProviderMeans(s: Core, next: Session -> BatchResult, markPicks: bool)
    ensures
      var t := CallProvider(s, next, markPicks);
      if s.session.None? then t == s
      else
        var r := next(s.session.value);
        t.session == Some(r.session) &&
        (t.sessionRevision == s.sessionRevision <==> r.picks == [] && t.session == s.session) &&
        t.picks == s.picks + if markPicks then (set p | p in r.picks && p != "") else {}
  {
  }

  // ---- the completion of a batch -----------------------------------------------------

  /** What the worker hands over, scored on its copy with the picks still queued. */
  function Scored(s: Core, w: Worker, score: Score): BatchResult {
    score(w.snapshot, w.queued, Picked(RowsAfter(s.queue, s.queueIndex), s.picks))
  }

  /**
    An installed batch: its picks follow whatever the queue is by then, all of
    them are remembered, and the session is the advanced copy, told of the picks
    queued ahead.
  */
  ghost predicate IsInstalled(s: Core, t: Core, r: BatchResult, signals: seq<Signal>, retain: Retain) {
    t.queue == (if r.picks == [] then s.queue else QueueAfter(s.queue, signals) + r.picks) &&
    (forall p :: p in s.picks || p in r.picks ==> p in t.picks) &&
    (r.picks == [] ==> t.session == Some(r.session)) &&
    (signals == [] ==> forall p :: p in t.picks ==> p in s.picks || p in r.picks) &&
    (signals == [] && r.picks != [] ==>
       t.session == Some(Retained(r.session, s.queue + r.picks, s.queueIndex, t.picks, retain))) &&
    !t.loading && !t.topUpInProgress
  }

  lemma InstallMeans(s: Core, r: BatchResult, signals: seq<Signal>, retain: Retain)
    requires s.radioActive && !s.topUpInProgress && s.session.Some?
    ensures IsInstalled(s, Install(s, r, signals, retain), r, signals, retain)
  {
    var installed := s.(session := Some(r.session), sessionRevision := s.sessionRevision + 1,
                        picks := s.picks + set p | p in r.picks);
    var prepared := HandleAll(installed, signals);
    HandleAllQueue(installed, signals);
    HandleAllReacts(installed, signals);
    QueueChangeMeans(prepared, prepared.queue + r.picks, prepared.queueIndex, retain);
    HandleReacts(prepared, QueueChanged(prepared.queue + r.picks, prepared.queueIndex, retain));
  }

  /** A completion that may be installed is. */
  lemma CompletionInstalls(s: Core, id: nat, score: Score, signals: seq<Signal>, retain: Retain)
    requires Invariant(s) && id in s.workers && Installable(s, s.workers[id])
    ensures var t := Complete(s, id, score, signals, retain);
            IsInstalled(s, t, Scored(s, s.workers[id], score), signals, retain)
  {
    var free := s.(workers := s.workers - {id}, topUpInProgress := false);
    PendingPicksAre(free);
    InstallMeans(free, Scored(s, s.workers[id], score), signals, retain);
  }

  /** A stale completion leaves a queue that has run down being refilled. */
  lemma StaleRefills(s: Core, id: nat, score: Score, signals: seq<Signal>, retain: Retain)
    requires Invariant(s) && id in s.workers && s.workers[id].requestId == s.requestId
    requires !Installable(s, s.workers[id])
    ensures var t := Complete(s, id, score, signals, retain);
            (RunDown(t) ==> t.topUpInProgress) && t.picks == s.picks && t.queueIndex == s.queueIndex
  {
  }

  /** What a completion under the current request leaves, installed or stale. */
  lemma CompletionOutcome(s: Core, id: nat, score: Score, signals: seq<Signal>, retain: Retain)
    requires Invariant(s) && id in s.workers
    ensures var t := Complete(s, id, score, signals, retain);
            (Installable(s, s.workers[id]) ==> IsInstalled(s, t, Scored(s, s.workers[id], score), signals, retain)) &&
            (s.workers[id].requestId == s.requestId && !Installable(s, s.workers[id]) ==>
               (RunDown(t) ==> t.topUpInProgress) && t.picks == s.picks)
  {
    if Installable(s, s.workers[id]) {
      CompletionInstalls(s, id, score, signals, retain);
    } else if s.workers[id].requestId == s.requestId {
      StaleRefills(s, id, score, signals, retain);
    }
  }

  // ---- commands ------------------------------------------------------------------------

  lemma StopMeans(s: Core, radioShuffle: bool, rebuilt: Option<Session>)
    ensures var t := StopRadio(s, radioShuffle, rebuilt);
            t.session == (if radioShuffle then rebuilt else None) && t.queue == s.queue && t.batchSize == s.batchSize
  {
  }

  /** Raising no signal, the opened request remembers no pick and leaves the queue alone. */
  lemma StartMeans(s: Core, batchSize: int, refillThreshold: int, signals: seq<Signal>)
    ensures var t := StartRadio(s, batchSize, refillThreshold, signals);
            t.batchSize == Clamp(batchSize, 1, 100) && t.queue == QueueAfter(s.queue, signals) &&
            (signals == [] ==> t.picks == {} && t.refillThreshold == Clamp(refillThreshold, 0, 100) && !t.shuffleSession)
  {
    HandleAllQueue(OpenSeeded(s, batchSize, refillThreshold), signals);
  }

  lemma FinishMeans(s: Core, id: nat, outcome: StartOutcome)
    requires Invariant(s) && id in s.pendingStarts && id == s.requestId
    ensures var t := FinishSeededStart(s, id, outcome);
            t.queue == s.queue && t.batchSize == s.batchSize &&
            (if outcome.Prepared? then t.picks == s.picks && t.radioActive == s.radioActive
             else t.picks == {} && t.session == if outcome.radioShuffle then outcome.rebuilt else None)
  {
    if outcome.SeedsGone? {
      StopMeans(s.(pendingStarts := s.pendingStarts - {id}), outcome.radioShuffle, outcome.rebuilt);
    }
  }

  lemma ArtistMeans(s: Core, session: Session, representative: Path, batchSize: int, signals: seq<Signal>)
    ensures var t := StartArtist(s, session, representative, batchSize, signals);
            t.batchSize == Clamp(batchSize, 1, 100) && t.queue == QueueAfter(s.queue, signals) &&
            representative in t.picks &&
            (signals == [] ==> t.session == Some(session) && t.picks == {representative})
  {
    HandleAllQueue(OpenWith(s, session, {representative}, batchSize), signals);
  }

  lemma PoolMeans(s: Core, session: Session, picks: seq<Path>, batchSize: int, signals: seq<Signal>)
    ensures var t := StartPool(s, session, picks, batchSize, signals);
            t.batchSize == Clamp(batchSize, 1, 100) && t.queue == QueueAfter(s.queue, signals) &&
            (forall p :: p in picks && p != "" ==> p in t.picks) &&
            (signals == [] ==> t.session == Some(session) && forall p :: p in t.picks <==> p in picks && p != "")
  {
    HandleAllQueue(OpenWith(s, session, (set p | p in picks && p != ""), batchSize), signals);
  }

  /** Exactly these paths are no picks any more. */
  ghost predicate Forgets(s: Core, t: Core, paths: seq<Path>) {
    forall p :: p in t.picks <==> p in s.picks && p !in paths
  }

  /** Refreshing goes ahead exactly with picks below the row, and forgets exactly those. */
  lemma RefreshMeans(s: Core, row: int, signals: seq<Signal>)
    ensures CanRefresh(s, row) <==>
              s.session.Some? && s.radioActive && !s.topUpInProgress && s.queueIndex <= row && 0 <= row < |s.queue| &&
              Picked(RowsAfter(s.queue, row), s.picks) != []
    ensures CanRefresh(s, row) ==>
              var t := RefreshBelow(s, row, signals);
              StaleBelow(s, row) == Picked(RowsAfter(s.queue, row), s.picks) &&
              t.queue == QueueAfter(s.queue, signals) &&
              (signals == [] ==> t.session == s.session && Forgets(s, t, Picked(RowsAfter(s.queue, row), s.picks)))
  {
    if 0 <= row < |s.queue| {
      StaleBelowAre(s, row);
      HandleAllQueue(s.(picks := s.picks - set p | p in StaleBelow(s, row)), signals);
    }
  }
}
