/** What the steps of the radio batch protocol achieve, in terms a caller can use. */
module RadioEffects {
  import opened Wrappers
  import opened RadioProtocol
  import opened RadioSafety

  /** Nothing in flight belongs to the current request. */
  ghost predicate NoneCurrent(s: Core) {
    forall id :: !CurrentWorker(s, id)
  }

  /** A new request: whatever was in flight before is superseded. */
  ghost predicate Supersedes(s: Core, t: Core) {
    t.requestId == s.requestId + 1 && forall id :: id in s.workers ==> !CurrentWorker(t, id)
  }

  /** A batch of this size is in flight, on a copy of the live session, with the live queue and current stamps. */
  ghost predicate BatchBegun(s: Core, count: int) {
    count > 0 && s.topUpInProgress && s.session.Some? &&
    exists id :: id in s.workers &&
      s.workers[id] == Worker(s.requestId, s.sessionRevision, s.queueRevision, s.session.value, s.queue, count)
  }

  lemma AppendBegins(s: Core, count: int)
    requires s.session.Some? && count > 0 && !s.topUpInProgress
    ensures BatchBegun(AppendBatch(s, count), count)
  {
    assert s.nextWorker in AppendBatch(s, count).workers;
  }

  /** The queue has run down to the threshold while radio queues ahead. */
  predicate RunDown(s: Core) {
    s.session.Some? && s.radioActive && s.batchSize > 1 && |s.queue| - 1 - s.queueIndex <= s.refillThreshold
  }

  /** A refill check begins a batch exactly when the queue has run down and none is in progress. */
  lemma TopUpBegins(s: Core)
    ensures RunDown(s) && !s.topUpInProgress ==> BatchBegun(MaybeTopUp(s), s.batchSize)
    ensures !RunDown(s) || s.topUpInProgress ==> MaybeTopUp(s) == s
  {
    if RunDown(s) && !s.topUpInProgress {
      AppendBegins(s, s.batchSize);
    }
  }

  /** While radio is active a queue change moves the queue revision, and a reconciled session its own. */
  lemma QueueChangeOutdates(s: Core, queue: seq<Path>, queueIndex: int, retain: Retain)
    ensures
      var t := Handle(s, QueueChanged(queue, queueIndex, retain));
      (s.radioActive ==> t.queueRevision > s.queueRevision) &&
      (t.session == s.session <==> t.sessionRevision == s.sessionRevision)
  {
  }

  /** A direct change of the session leaves no batch in flight that could still be installed. */
  lemma ChangeOutdates(s: Core, change: Session -> Session, id: nat)
    requires Invariant(s) && s.session.Some? && CurrentWorker(s, id)
    ensures Stale(Mutate(s, change), s.workers[id])
  {
  }

  lemma StartOpens(s: Core, batchSize: int, refillThreshold: int, signals: seq<Signal>)
    requires Invariant(s)
    ensures var t := StartRadio(s, batchSize, refillThreshold, signals);
            Supersedes(s, t) && NoneCurrent(t) && t.radioActive && t.session.None? && t.loading &&
            t.requestId in t.pendingStarts
  {
    HandleAllReacts(OpenSeeded(s, batchSize, refillThreshold), signals);
  }

  lemma StopEnds(s: Core, radioShuffle: bool, rebuilt: Option<Session>)
    requires Invariant(s)
    ensures var t := StopRadio(s, radioShuffle, rebuilt);
            Supersedes(s, t) && NoneCurrent(t) && !t.radioActive && !t.loading && t.picks == {} &&
            (t.session.Some? ==> t.shuffleSession)
  {
  }

  /** A finished start is dropped if superseded; otherwise it ends the radio, or installs its session and goes on. */
  lemma FinishStarts(s: Core, id: nat, outcome: StartOutcome)
    requires Invariant(s) && id in s.pendingStarts
    ensures var t := FinishSeededStart(s, id, outcome);
            if id != s.requestId then t == s.(pendingStarts := s.pendingStarts - {id})
            else if outcome.SeedsGone? then Supersedes(s, t) && !t.radioActive && !t.loading
            else
              t.requestId == s.requestId && t.session == Some(StartSession(outcome)) &&
              (if s.batchSize > 1 then BatchBegun(t, s.batchSize - 1) else !t.loading && NoneCurrent(t))
  {
    if id == s.requestId && outcome.Prepared? {
      var noted := Noted(s.(pendingStarts := s.pendingStarts - {id}), outcome.session, outcome.current, outcome.note);
      assert NoneCurrent(s);
      assert forall w :: !CurrentWorker(noted, w);
      if s.batchSize > 1 {
        AppendBegins(noted, s.batchSize - 1);
      }
    }
  }

  /** The prepared session, told of the track that is playing. */
  function StartSession(outcome: StartOutcome): Session
    requires outcome.Prepared?
  {
    if outcome.current != "" then outcome.note(outcome.session, outcome.current) else outcome.session
  }

  lemma ArtistStarts(s: Core, session: Session, representative: Path, batchSize: int, signals: seq<Signal>)
    requires Invariant(s)
    ensures var t := StartArtist(s, session, representative, batchSize, signals);
            Supersedes(s, t) && t.radioActive && t.session.Some? &&
            (if t.batchSize > 1 then BatchBegun(t, t.batchSize - 1) else !t.loading && NoneCurrent(t))
  {
    var ready := OpenWith(s, session, {representative}, batchSize);
    HandleAllReacts(ready, signals);
    var played := HandleAll(ready, signals).(topUpInProgress := false);
    assert forall w :: !CurrentWorker(played, w);
    if played.batchSize > 1 {
      AppendBegins(played, played.batchSize - 1);
    }
  }

  lemma PoolStarts(s: Core, session: Session, picks: seq<Path>, batchSize: int, signals: seq<Signal>)
    requires Invariant(s)
    ensures var t := StartPool(s, session, picks, batchSize, signals);
            Supersedes(s, t) && NoneCurrent(t) && t.radioActive && t.session.Some? && !t.loading
  {
    HandleAllReacts(OpenWith(s, session, (set p | p in picks && p != ""), batchSize), signals);
  }

  /** A refresh that goes ahead fetches as many new picks as it dropped. */
  lemma RefreshRefetches(s: Core, row: int, signals: seq<Signal>)
    requires Invariant(s)
    ensures CanRefresh(s, row) ==> BatchBegun(RefreshBelow(s, row, signals), |StaleBelow(s, row)|)
  {
    if CanRefresh(s, row) {
      var unmarked := s.(picks := s.picks - set p | p in StaleBelow(s, row));
      HandleAllReacts(unmarked, signals);
      AppendBegins(HandleAll(unmarked, signals), |StaleBelow(s, row)|);
    }
  }

  /** The worker may be installed when it completes. */
  predicate Installable(s: Core, w: Worker) {
    w.requestId == s.requestId && !Stale(s, w) && s.radioActive && s.session.Some?
  }

  /**
    A completion changes nothing when superseded; it leaves session and queue
    alone when stale; and when it installs, the session it was copied from was
    still the live one, the queue was the excluded one, and the result is that of
    scoring on the live session.
  */
  lemma CompletionMeans(s: Core, id: nat, score: Score, signals: seq<Signal>, retain: Retain)
    requires Invariant(s) && id in s.workers
    ensures var w, t := s.workers[id], Complete(s, id, score, signals, retain);
            if w.requestId != s.requestId then t == s.(workers := s.workers - {id})
            else if !Installable(s, w) then t.session == s.session && t.queue == s.queue
            else s.session == Some(w.snapshot) && s.queue == w.queued &&
                 t == CompleteAtomically(s, id, score, signals, retain)
  {
    StepIsAtomic(s, WorkerFinished(id, score, signals, retain));
    if s.workers[id].requestId == s.requestId {
      assert CurrentWorker(s, id);
    }
  }
}
