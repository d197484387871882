/**
  The rating write-back protocol.  One background worker writes pending ratings
  into files, re-reads each file into the scanned rating and deletes the pending
  row.  Every statement of the GUI, the worker and the scanner is one step, and
  steps interleave freely.
*/
module RatingSync {
  import opened Wrappers
  import opened Ratings

  // ---- the interleaving ------------------------------------------------------------

  /** A rate or clear command is two statements; between them the GUI is mid-command. */
  datatype Gui = Waiting | MidRate(path: Path, rating: int) | MidClear(path: Path)

  datatype Worker =
    | Resting
    | Checked(path: Path, desired: int)
    | Written(path: Path, desired: int)
    | Stored(path: Path, desired: int)

  datatype Reading = Reading(path: Path, rating: int)

  datatype World = World(t: Tables, files: map<Path, int>, gui: Gui, worker: Worker,
                         scans: map<nat, Reading>)

  datatype Event =
    | SetUser(path: Path, rating: int)
    | ClearUser(path: Path)
    | FinishCommand
    | Check(path: Path, desired: int, pendingOnly: bool)
    | NoWritablePath
    | WriteFails
    | WriteFile
    | Reread(readable: bool)
    | Reconcile
    | ScanRead(slot: nat, path: Path, readable: bool)
    | ScanStore(slot: nat)
    | Prune(path: Path)

  /** What reading a file's tags gives: a normalised rating, or unset. */
  function ReadTag(files: map<Path, int>, path: Path, readable: bool): int {
    if readable && path in files then Normalized(files[path]) else UNSET
  }

  function GuiStep(w: World, e: Event): World {
    match e
    case SetUser(path, rating) =>
      if w.gui != Waiting || rating < 0 then w
      else w.(t := UserSet(w.t, path, rating), gui := MidRate(path, rating))
    case ClearUser(path) =>
      if w.gui != Waiting then w else w.(t := UserCleared(w.t, path), gui := MidClear(path))
    case _ =>
      match w.gui
      case Waiting => w
      case MidRate(path, rating) => w.(t := PendingSet(w.t, path, rating, "pending"), gui := Waiting)
      case MidClear(path) => w.(t := PendingCleared(w.t, path, -1), gui := Waiting)
  }

  function WorkerStep(w: World, e: Event): World {
    match (w.worker, e)
    case (Resting, Check(path, desired, pendingOnly)) =>
      if WriteWanted(w.t, path, desired, pendingOnly) then w.(worker := Checked(path, desired)) else w
    case (Checked(path, desired), NoWritablePath) =>
      w.(t := FailureRecorded(w.t, path, desired, "blocked_no_writable_path"), worker := Resting)
    case (Checked(path, desired), WriteFails) =>
      w.(t := FailureRecorded(w.t, path, desired, "failed"), worker := Resting)
    case (Checked(path, desired), WriteFile) =>
      w.(files := w.files[path := Normalized(desired)], worker := Written(path, desired))
    case (Written(path, desired), Reread(readable)) =>
      var reading := ReadTag(w.files, path, readable);
      if reading < 0 || path !in w.t.scanned then w.(worker := Resting)
      else w.(t := ScannedUpdated(w.t, path, reading), worker := Stored(path, desired))
    case (Stored(path, desired), Reconcile) =>
      w.(t := PendingCleared(w.t, path, desired), worker := Resting)
    case _ => w
  }

  function ScannerStep(w: World, e: Event): World {
    match e
    case ScanRead(slot, path, readable) => w.(scans := w.scans[slot := Reading(path, ReadTag(w.files, path, readable))])
    case ScanStore(slot) =>
      if slot !in w.scans then w
      else w.(t := Upserted(w.t, w.scans[slot].path, w.scans[slot].rating), scans := w.scans - {slot})
    case Prune(path) => w.(t := Pruned(w.t, path))
    case _ => w
  }

  function Step(w: World, e: Event): World {
    match e
    case SetUser(_, _) => GuiStep(w, e)
    case ClearUser(_) => GuiStep(w, e)
    case FinishCommand => GuiStep(w, e)
    case ScanRead(_, _, _) => ScannerStep(w, e)
    case ScanStore(_) => ScannerStep(w, e)
    case Prune(_) => ScannerStep(w, e)
    case _ => WorkerStep(w, e)
  }

  function Run(w: World, events: seq<Event>): World
    decreases |events|
  {
    if events == [] then w else Run(Step(w, events[0]), events[1..])
  }

  // ---- what every step keeps ---------------------------------------------------------

  predicate MidCommand(w: World, path: Path) {
    !w.gui.Waiting? && w.gui.path == path
  }

  predicate InFlight(w: World, path: Path) {
    !w.worker.Resting? && w.worker.path == path
  }

  /** A pending row carries the user's rating, and its status keeps the overlay on. */
  predicate PendingIsUser(w: World, path: Path) {
    !MidCommand(w, path) ==> PendingMatches(w.t, path)
  }

  /** While an older rating is in flight, the newer one is pending. */
  predicate NewerIsPending(w: World, path: Path) {
    InFlight(w, path) && !MidCommand(w, path) && path in w.t.user && w.t.user[path] != w.worker.desired ==>
      path in w.t.pending
  }

  ghost predicate Invariant(w: World) {
    (forall p :: PendingIsUser(w, p)) &&
    (forall p :: NewerIsPending(w, p)) &&
    (forall p :: p in w.t.pending ==> OverlayActive(w.t.pending[p].status)) &&
    WellStored(w.t) &&
    (w.gui.MidRate? ==> w.gui.rating >= 0 && w.gui.path in w.t.user && w.t.user[w.gui.path] == Normalized(w.gui.rating)) &&
    (w.gui.MidClear? ==> w.gui.path !in w.t.user) &&
    (!w.worker.Resting? ==> w.worker.desired >= 0) &&
    (w.worker.Written? || w.worker.Stored? ==>
       w.worker.path in w.files && w.files[w.worker.path] == Normalized(w.worker.desired))
  }

  const START := World(NO_TABLES, map[], Waiting, Resting, map[])

  lemma GuiKeepsInvariant(w: World, e: Event)
    requires Invariant(w)
    ensures Invariant(GuiStep(w, e))
  {
    forall p ensures PendingIsUser(GuiStep(w, e), p) {
      assert PendingIsUser(w, p);
    }
    forall p ensures NewerIsPending(GuiStep(w, e), p) {
      assert NewerIsPending(w, p);
    }
  }

  lemma WorkerKeepsInvariant(w: World, e: Event)
    requires Invariant(w)
    ensures Invariant(WorkerStep(w, e))
  {
    forall p ensures PendingIsUser(WorkerStep(w, e), p) {
      assert PendingIsUser(w, p);
    }
    forall p ensures NewerIsPending(WorkerStep(w, e), p) {
      assert NewerIsPending(w, p) && PendingIsUser(w, p);
    }
  }

  lemma ScannerKeepsInvariant(w: World, e: Event)
    requires Invariant(w)
    ensures Invariant(ScannerStep(w, e))
  {
    forall p ensures PendingIsUser(ScannerStep(w, e), p) && NewerIsPending(ScannerStep(w, e), p) {
      assert PendingIsUser(w, p) && NewerIsPending(w, p);
    }
  }

  lemma StepKeepsInvariant(w: World, e: Event)
    requires Invariant(w)
    ensures Invariant(Step(w, e))
  {
    GuiKeepsInvariant(w, e);
    WorkerKeepsInvariant(w, e);
    ScannerKeepsInvariant(w, e);
  }

  /** Over every run, a pending row carries the same rating as the user row unless the GUI is between the two. */
  lemma {:induction false} PendingCarriesUserRating(files: map<Path, int>, events: seq<Event>, path: Path)
    ensures
      var w := Run(START.(files := files), events);
      Invariant(w) &&
      (path in w.t.pending && !MidCommand(w, path) ==>
         path in w.t.user && w.t.user[path] == w.t.pending[path].rating)
  {
    RunKeepsInvariant(START.(files := files), events);
    assert PendingIsUser(Run(START.(files := files), events), path);
  }

  lemma {:induction false} RunKeepsInvariant(w: World, events: seq<Event>)
    requires Invariant(w)
    ensures Invariant(Run(w, events))
    decreases |events|
  {
    if events != [] {
      StepKeepsInvariant(w, events[0]);
      RunKeepsInvariant(Step(w, events[0]), events[1..]);
    }
  }

  /** A worker step for one rating leaves the pending row of any other rating exactly as it is. */
  lemma OlderCompletionKeepsNewer(w: World, e: Event, path: Path)
    requires path in w.t.pending
    requires InFlight(w, path) ==> w.t.pending[path].rating != w.worker.desired
    requires w.worker.Resting? || w.worker.desired >= 0
    ensures path in WorkerStep(w, e).t.pending && WorkerStep(w, e).t.pending[path] == w.t.pending[path]
  {
  }

  /** Storing a scan result, or pruning, changes the scanned rating of that track, and nothing else of it or of others. */
  lemma ScanChangesScanned(w: World, slot: nat, path: Path)
    ensures slot in w.scans ==>
      var r, t := w.scans[slot], Step(w, ScanStore(slot)).t;
      t == w.t.(scanned := w.t.scanned[r.path := if r.rating < 0 then None else Some(r.rating)])
    ensures Step(w, Prune(path)).t == w.t.(scanned := w.t.scanned - {path})
  {
  }

  /**
    A failed write is recorded with its reason for a rating the user still has,
    whose pending row stays, or is put back; otherwise nothing but the worker moves.
  */
  lemma FailureIsRecorded(w: World, path: Path, desired: int)
    requires w.worker == Checked(path, desired) && Invariant(w)
    ensures var failed, blocked := Step(w, WriteFails), Step(w, NoWritablePath);
            failed.worker == Resting && blocked.worker == Resting &&
            (if path in w.t.user && w.t.user[path] == desired && (path in w.t.pending ==> w.t.pending[path].rating == desired)
             then failed.t == w.t.(pending := w.t.pending[path := Pending(desired, "failed")]) &&
                  blocked.t == w.t.(pending := w.t.pending[path := Pending(desired, "blocked_no_writable_path")])
             else failed.t == w.t && blocked.t == w.t)
  {
  }

  // ---- the effective rating after a rate command -----------------------------------

  predicate ShowsRating(reading: Option<int>, rating: int) {
    reading == None || reading == Some(rating)
  }

  /** The worker's next step deletes the pending row. */
  predicate AboutToReconcile(w: World, path: Path) {
    w.worker.Stored? && w.worker.path == path && path in w.t.pending && w.t.pending[path].rating == w.worker.desired
  }

  /** The overlay alone keeps the rating, now and after the worker's next step. */
  predicate Overlaid(w: World, path: Path) {
    path in w.t.pending && !AboutToReconcile(w, path)
  }

  /** The rating command is complete, and the rating is either overlaid or in the file. */
  predicate InPlace(w: World, path: Path, rating: int) {
    !MidCommand(w, path) && path in w.t.user && w.t.user[path] == rating &&
    (!Overlaid(w, path) ==>
       (path in w.t.scanned ==> ShowsRating(w.t.scanned[path], rating)) &&
       path in w.files && w.files[path] == rating)
  }

  ghost predicate Settled(w: World, path: Path, rating: int) {
    Invariant(w) && InPlace(w, path, rating)
  }

  predicate Rated(w: World, path: Path, rating: int) {
    path in w.t.scanned ==> EffectiveOf(w.t, path) == rating
  }

  /** The track shows the rating, and still will after the worker's next step. */
  predicate Held(w: World, path: Path, rating: int) {
    Rated(w, path, rating) && Rated(Step(w, Reconcile), path, rating)
  }

  /** The worker is about to reconcile this rating while the track holds another reading. */
  predicate Undermined(w: World, path: Path, rating: int) {
    w.worker == Stored(path, rating) && path in w.t.scanned && !ShowsRating(w.t.scanned[path], rating)
  }

  /**
    Completing a rate command settles its normalised rating, whatever is in
    flight, except exactly when the worker is about to reconcile an equal rating
    over another reading; then the rating does not hold.
  */
  lemma RateSettles(w: World, path: Path, rating: int)
    requires Invariant(w) && w.gui == MidRate(path, rating)
    ensures var after := Step(w, FinishCommand);
            if Undermined(w, path, Normalized(rating)) then !Held(after, path, Normalized(rating))
            else Settled(after, path, Normalized(rating))
  {
    StepKeepsInvariant(w, FinishCommand);
  }

  /** Storing this scan result does no harm: the overlay hides it, or it is unset or the user's own rating. */
  predicate ScanIsHarmless(w: World, slot: nat, path: Path) {
    slot !in w.scans || w.scans[slot].path != path || Overlaid(w, path) ||
    w.scans[slot].rating < 0 || (path in w.t.user && w.scans[slot].rating == w.t.user[path])
  }

  predicate IsUserCommand(e: Event, path: Path) {
    (e.SetUser? || e.ClearUser?) && e.path == path
  }

  lemma WorkerKeepsInPlace(w: World, e: Event, path: Path, rating: int)
    requires Invariant(w) && InPlace(w, path, rating)
    ensures InPlace(WorkerStep(w, e), path, rating)
  {
    assert PendingIsUser(w, path) && NewerIsPending(w, path);
  }

  /** No step but a user command on the path or a harmful scan result unsettles a rating. */
  lemma StepKeepsSettled(w: World, e: Event, path: Path, rating: int)
    requires Settled(w, path, rating) && !IsUserCommand(e, path)
    requires e.ScanStore? ==> ScanIsHarmless(w, e.slot, path)
    ensures Settled(Step(w, e), path, rating)
  {
    StepKeepsInvariant(w, e);
    WorkerKeepsInPlace(w, e, path, rating);
  }

  lemma SettledIsHeld(w: World, path: Path, rating: int)
    requires Settled(w, path, rating)
    ensures Held(w, path, rating)
  {
    assert PendingIsUser(w, path);
    StepKeepsSettled(w, Reconcile, path, rating);
    assert PendingIsUser(Step(w, Reconcile), path);
  }

  /**
    Exactly the harmful scan results lose the rating: after storing one, the
    track shows another rating at once, or as soon as the worker reconciles.
  */
  lemma HarmIsExact(w: World, slot: nat, path: Path, rating: int)
    requires Settled(w, path, rating)
    ensures ScanIsHarmless(w, slot, path) <==> Held(Step(w, ScanStore(slot)), path, rating)
  {
    assert PendingIsUser(w, path);
    if ScanIsHarmless(w, slot, path) {
      StepKeepsSettled(w, ScanStore(slot), path, rating);
      SettledIsHeld(Step(w, ScanStore(slot)), path, rating);
    }
  }

  // ---- whole runs ----------------------------------------------------------------

  predicate NoUserCommand(events: seq<Event>, path: Path) {
    forall i :: 0 <= i < |events| ==> !IsUserCommand(events[i], path)
  }

  /** Every scan result the run stores is harmless to the track when it is stored. */
  predicate ScansAreHarmless(w: World, events: seq<Event>, path: Path)
    decreases |events|
  {
    events == [] ||
    ((events[0].ScanStore? ==> ScanIsHarmless(w, events[0].slot, path)) &&
     ScansAreHarmless(Step(w, events[0]), events[1..], path))
  }

  /** The track holds the rating in every state of the run. */
  predicate AlwaysHeld(w: World, events: seq<Event>, path: Path, rating: int)
    decreases |events|
  {
    Held(w, path, rating) && (events == [] || AlwaysHeld(Step(w, events[0]), events[1..], path, rating))
  }

  /** Until the next user command, a settled rating is held throughout exactly by the runs whose scan results are harmless. */
  lemma {:induction false} SettledIsKeptExactly(w: World, events: seq<Event>, path: Path, rating: int)
    requires Settled(w, path, rating) && NoUserCommand(events, path)
    ensures ScansAreHarmless(w, events, path) <==> AlwaysHeld(w, events, path, rating)
    decreases |events|
  {
    SettledIsHeld(w, path, rating);
    if events != [] {
      var e := events[0];
      if e.ScanStore? && !ScanIsHarmless(w, e.slot, path) {
        HarmIsExact(w, e.slot, path, rating);
      } else {
        StepKeepsSettled(w, e, path, rating);
        SettledIsKeptExactly(Step(w, e), events[1..], path, rating);
      }
    }
  }

  /**
    After any run, from the completion of a rate command until the next user
    command on that track, the track shows the rating the user gave, while it is
    pending, while older writes complete, and after the write has drained,
    exactly if the completion is not undermined and every scan result stored
    meanwhile is harmless to that track.  Other tracks and the history before the
    command do not matter.
  */
  lemma {:induction false} RateIsShown(files: map<Path, int>, before: seq<Event>, path: Path, rating: int,
                                       later: seq<Event>)
    requires Run(START.(files := files), before).gui == MidRate(path, rating) && NoUserCommand(later, path)
    ensures
      var w := Run(START.(files := files), before);
      var after := Step(w, FinishCommand);
      AlwaysHeld(after, later, path, Normalized(rating)) <==>
      (!Undermined(w, path, Normalized(rating)) && ScansAreHarmless(after, later, path))
  {
    var w := Run(START.(files := files), before);
    RunKeepsInvariant(START.(files := files), before);
    RateSettles(w, path, rating);
    if !Undermined(w, path, Normalized(rating)) {
      SettledIsKeptExactly(Step(w, FinishCommand), later, path, Normalized(rating));
    }
  }

  // ---- scans that read and store without a write between ---------------------------

  /** The reading about to be stored for the track is unset, or what the file says now. */
  predicate ScanIsCurrent(w: World, slot: nat, path: Path) {
    slot !in w.scans || w.scans[slot].path != path || w.scans[slot].rating < 0 ||
    (path in w.files && w.scans[slot].rating == Normalized(w.files[path]))
  }

  predicate ScansAreCurrent(w: World, events: seq<Event>, path: Path)
    decreases |events|
  {
    events == [] ||
    ((events[0].ScanStore? ==> ScanIsCurrent(w, events[0].slot, path)) &&
     ScansAreCurrent(Step(w, events[0]), events[1..], path))
  }

  /** What the worker has stored for the track still shows the rating it wrote. */
  predicate StoredShows(w: World, path: Path) {
    w.worker.Stored? && w.worker.path == path && path in w.t.scanned ==>
      ShowsRating(w.t.scanned[path], Normalized(w.worker.desired))
  }

  lemma {:induction false} RunKeepsStoredShows(w: World, events: seq<Event>, path: Path)
    requires Invariant(w) && StoredShows(w, path) && ScansAreCurrent(w, events, path)
    ensures Invariant(Run(w, events)) && StoredShows(Run(w, events), path)
    decreases |events|
  {
    if events != [] {
      StepKeepsInvariant(w, events[0]);
      RunKeepsStoredShows(Step(w, events[0]), events[1..], path);
    }
  }

  lemma {:induction false} CurrentIsHarmless(w: World, events: seq<Event>, path: Path, rating: int)
    requires Settled(w, path, rating) && NoUserCommand(events, path) && ScansAreCurrent(w, events, path)
    ensures ScansAreHarmless(w, events, path)
    decreases |events|
  {
    if events != [] {
      StepKeepsSettled(w, events[0], path, rating);
      CurrentIsHarmless(Step(w, events[0]), events[1..], path, rating);
    }
  }

  lemma NotUndermined(w: World, path: Path, rating: int)
    requires Invariant(w) && w.gui == MidRate(path, rating) && StoredShows(w, path)
    ensures !Undermined(w, path, Normalized(rating)) && Settled(Step(w, FinishCommand), path, Normalized(rating))
  {
    RateSettles(w, path, rating);
  }

  /** Scans that store what the file says are enough: with them, the rating is always shown. */
  lemma {:induction false} CurrentScansShowRating(files: map<Path, int>, before: seq<Event>, path: Path, rating: int,
                                                  later: seq<Event>)
    requires Run(START.(files := files), before).gui == MidRate(path, rating) && NoUserCommand(later, path)
    requires ScansAreCurrent(START.(files := files), before, path)
    requires ScansAreCurrent(Step(Run(START.(files := files), before), FinishCommand), later, path)
    ensures AlwaysHeld(Step(Run(START.(files := files), before), FinishCommand), later, path, Normalized(rating))
  {
    var w := Run(START.(files := files), before);
    RunKeepsStoredShows(START.(files := files), before, path);
    NotUndermined(w, path, rating);
    CurrentIsHarmless(Step(w, FinishCommand), later, path, Normalized(rating));
    SettledIsKeptExactly(Step(w, FinishCommand), later, path, Normalized(rating));
  }

  // ---- a run that loses the rating ---------------------------------------------------

  const RATE_80 := [ScanRead(0, "a", true), ScanStore(0), SetUser("a", 80), FinishCommand]

  const SCAN_AND_WRITE := [ScanRead(1, "a", true), Check("a", 80, true), WriteFile]

  const DRAIN := [Reread(true), Reconcile]

  /** The file says 20 and the user has just rated 80. */
  const RATED := World(Tables(map["a" := 80], map["a" := Pending(80, "pending")], map["a" := Some(20)]),
                       map["a" := 20], Waiting, Resting, map[])

  /** The file has been written while a scan holds the reading from before. */
  const WRITTEN := World(Tables(map["a" := 80], map["a" := Pending(80, "pending")], map["a" := Some(20)]),
                         map["a" := 80], Waiting, Written("a", 80), map[1 := Reading("a", 20)])

  const DRAINED := World(Tables(map["a" := 80], map[], map["a" := Some(80)]), map["a" := 80], Waiting, Resting,
                         map[1 := Reading("a", 20)])

  /** States that follow one another by the events are a run. */
  lemma {:induction false} RunAlong(w: seq<World>, e: seq<Event>)
    requires |w| == |e| + 1 && forall i :: 0 <= i < |e| ==> w[i + 1] == Step(w[i], e[i])
    ensures Run(w[0], e) == w[|e|]
    decreases |e|
  {
    if e != [] {
      RunAlong(w[1..], e[1..]);
    }
  }

  lemma RatedState()
    ensures Run(START.(files := map["a" := 20]), RATE_80) == RATED
  {
    var w0 := START.(files := map["a" := 20]);
    var w1 := w0.(scans := map[0 := Reading("a", 20)]);
    var w2 := w0.(t := Upserted(w0.t, "a", 20));
    var w3 := w2.(t := UserSet(w2.t, "a", 80), gui := MidRate("a", 80));
    assert Step(w1, ScanStore(0)) == w2;
    RunAlong([w0, w1, w2, w3, RATED], RATE_80);
  }

  lemma WrittenState()
    ensures Run(RATED, SCAN_AND_WRITE) == WRITTEN
  {
    var w1 := RATED.(scans := map[1 := Reading("a", 20)]);
    RunAlong([RATED, w1, w1.(worker := Checked("a", 80)), WRITTEN], SCAN_AND_WRITE);
  }

  lemma DrainedState()
    ensures Run(WRITTEN, DRAIN) == DRAINED
  {
    var stored := WRITTEN.(t := ScannedUpdated(WRITTEN.t, "a", 80), worker := Stored("a", 80));
    assert Step(stored, Reconcile) == DRAINED;
    RunAlong([WRITTEN, stored, DRAINED], DRAIN);
  }

  /** The rating holds in all three states; the late reading is harmful in the last one, and replaces the rating. */
  lemma StaleReadingShows()
    ensures Held(RATED, "a", 80) && Held(DRAINED, "a", 80) && !ScanIsHarmless(DRAINED, 1, "a")
    ensures !Rated(Step(DRAINED, ScanStore(1)), "a", 80)
    ensures DRAINED.files["a"] == 80 && DRAINED.t.user["a"] == 80
  {
  }

  /**
    A scan that reads the file before the write and stores its reading after it
    loses the rating: the file and the user row hold 80, the track shows 20.
  */
  lemma StaleScanLosesRating()
    ensures Run(START.(files := map["a" := 20]), RATE_80) == RATED && Held(RATED, "a", 80)
    ensures Run(RATED, SCAN_AND_WRITE) == WRITTEN && Run(WRITTEN, DRAIN) == DRAINED && Held(DRAINED, "a", 80)
    ensures !ScanIsHarmless(DRAINED, 1, "a") && !Rated(Step(DRAINED, ScanStore(1)), "a", 80)
  {
    RatedState();
    WrittenState();
    DrainedState();
    StaleReadingShows();
  }
}
