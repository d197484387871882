# Muzaiten: a verified model of its hard core

This project models the parts of the Muzaiten music player where a mistake
would not show in any one function, and proves what they promise together.

- **Han mapping assembly** (`HanChains`, `HanAssembly`, `HanRounds`,
  `HanMigration`, `HanFamilies`, `HanEvidence`, `HanPrecedence`, `HanReadings`).
  A table maps ideographs to simplified targets; following targets gives a
  terminal key or runs into a cycle. The three chain resolvers are proved to
  agree. The tier-by-tier migration is proved never to split a pair that is
  joined both before and after it, for every baseline and every set of disjoint
  tiers, and to pull a row forward exactly when some table of the tier calls for
  it. Variant families are mapped one step deep, to the member the rules, the
  partition or the reviewed choice single out, along real walks of the relation
  graph. Attested readings are ordered by the first piece of evidence that tells
  them apart, a reviewed choice only permutes inside ties, and every tie is
  reported.
- **The asynchronous radio batch protocol** (`RadioProtocol`, `RadioSafety`,
  `RadioEffects`, `RadioOutcomes`, `RadioProgress`, `AppCore`). A worker scores a batch on a copy
  of the session while the event loop goes on changing the live session and the
  queue. Every run of the protocol is proved equal to a run in which each batch
  is scored on the live session at the moment it completes, so no update is
  lost; the progress and loading flags are proved exact; and once mutations
  cease, workers, pending starts and queued refill checks run out within a bound
  and leave loading cleared. The class `AppCore.RadioController` holds the
  fields. Its `Valid()` is the control invariant, which every entry point of the
  event loop keeps; each does exactly one step of the protocol and its contract
  names what that step achieves.
- **Song identity** (`SongIdentity`, `SongComponents`, `UnionFind`, `SongKeys`).
  The frontier search over paths, recording ids, fallback keys and content
  groups returns exactly the connected component of the start track in the whole
  library. The whole-library keys, computed with disjoint sets, are equal exactly
  for connected tracks, so both forms of the question agree.
- **Library store** (`LibraryMigration`, `ScanSession`, `SearchRevision`,
  `SearchSnapshots`, `SearchCli`, `SearchCache`, `Ratings`, `RatingSync`). The
  de-duplicating migration keeps what every row refers to; the scan memo always
  agrees with the query it replaces; a search cache whose stamp matches holds
  the current projection, in every interleaving in which the snapshot it was
  written from and the snapshot that reads it both have their triggers, and in
  general only then; the batching cursor loses and repeats nothing; and the
  rating a user gave is shown until the next user command in exactly the runs
  whose late scan results are harmless, whatever the write-back worker does.
- **The fold tables** (`Foldgen`, `FoldTables` with `Bits` and `Utf16`). Packed
  entries read back through the string pool, and the lookup of the compiled
  tables gives every code point its meaning, those the generator leaves out
  included.
- **Supporting refinements** (`PlaylistDatabase`, `HumanQuantity` with `Text`).
  Playlist rows refine sequences; printed durations parse back.

`Wrappers`, `Ordering` and `Reachability` hold the small shared vocabulary:
optional values, the least element and ascending order of a set, and walks in a
graph.

Ideographs are natural numbers, tables are maps, and iteration over a `dict` or
a `set` is an arbitrary choice unless the code sorts it. Tables of the database
are maps from row ids to rows. Everything the code receives from outside (player
signals, scoring, tag reading, the folding of a field, statement failures of the
cursor, the ids a database hands out) is a parameter that the proofs leave free.

## Results that qualify a promise

- `RatingSync.StaleScanLosesRating`: a library scan that reads a file before the
  write-back and stores its reading after it makes the track show the old
  rating, although the file and the user row hold the new one. Nothing in the
  code keeps a scan and the write-back apart. `RatingSync.RateIsShown` gives the
  exact condition for whole runs: the rating is shown from the command to the
  next one if and only if each scan result stored meanwhile for that track is
  hidden by the overlay, unset, or the user's own rating, and the worker is not
  just about to reconcile an equal rating over another reading.
- `SearchSnapshots.GuaranteeIsExact`: a cache hit is guaranteed to be current
  exactly when the writing and the reading snapshot both have every trigger. The
  triggers are ensured when a connection opens, not when a snapshot begins, and
  `SearchSnapshots.ReaderWithoutTriggers`, `WriterWithoutTriggers` and
  `BothWithoutTriggers` are runs in which equal stamps hide a missed row. Both
  conditions can be read inside the transaction concerned.
- `Ratings.FormsAgree`: the SQL and the C++ effective rating differ exactly when
  a negative scanned rating is stored (the writers store NULL instead), no
  overlay applies, and the fallback is another value.
- `PlaylistDatabase.ReorderGivesPermutation`: a reorder yields the listed order
  exactly when the list is a permutation of the playlist's items; the header of
  the original declares that contract, its code does not check it.
- `SearchCli.Loader.StreamRecords`: after part of a damaged cache has gone to the
  sink the call stops with an error, while `SearchCli.Loader.LoadIndex` rebuilds
  from the database.

## Model

| member | source | states |
|---|---|---|
| HanChains.NoTerminalIffCycle | tools/fold-han-rare.py:988-1003 | an ideograph has no terminal key exactly when its chain enters a cycle of the table |
| HanChains.TerminalIsFinal | tools/fold-han-rare.py:988-1003 | a terminal key is reached by following targets and maps to nothing |
| HanChains.WalkToKnown | tools/fold-han-rare.py:993-999 | one memoised walk ends with the key of its start, which every ideograph on the walk shares |
| HanChains.TerminalKeys | tools/fold-han-rare.py:988-1003 | the memoised table holds for every ideograph of the table the key naive iteration gives, or none for a cycle |
| HanChains.WalkToTerminal | tools/foldgen.py:264-276 | a walk finds the terminal form of everything on it, or the cycle it closes is a real one |
| HanChains.ResolveSimplificationChains | tools/foldgen.py:258-277 | fails exactly when some chain has no terminal form, naming a real cycle; otherwise maps every key to its terminal form, in any insertion order |
| HanChains.TerminalSimplified | tools/fold-han-data.py:791-796 | the walk of the word check ends at the terminal form, or on a cycle |
| HanChains.CheckedWordKey | tools/fold-han-data.py:857 | the word key of the word check replaces each ideograph by its terminal form |
| HanChains.WordKeysAgree | tools/foldgen.py:168 | one lookup per ideograph in the resolved table gives the same word key as walking every chain |
| HanAssembly.GroupByKey | tools/fold-han-rare.py:1026-1029 | groups exactly the ideographs with a key under that key, in ascending order |
| HanAssembly.JoinedPairs | tools/fold-han-rare.py:1024-1031 | the pairs are exactly those with one common terminal key, and the cycle list is exactly the ideographs without one |
| HanAssembly.PendingTarget | tools/fold-han-rare.py:1055-1066 | finds the first row of the chain that a later tier would still change, or none on a chain without one |
| HanAssembly.BreakingRows | tools/fold-han-rare.py:1071-1075 | collects exactly the pending rows that a missing pair's chains meet first |
| HanAssembly.NeededRows | tools/fold-han-rare.py:1071-1079 | returns the rows to pull next with their reasons; `HanRounds.NeededIsCalledFor` says which rows and reasons these are |
| HanAssembly.CleanTerminal | tools/fold-han-rare.py:1068-1084 | a chain that meets no pending row has the same key in the current and the final table |
| HanAssembly.SplitNeedsRow | tools/fold-han-rare.py:1072-1075 | a retained pair that is split now always has a row to pull |
| HanAssembly.CycleNeedsRow | tools/fold-han-rare.py:1076-1077 | a cycle that is not a cycle of the final table always has a row to pull |
| HanAssembly.NothingNeeded | tools/fold-han-rare.py:1080-1081 | when the inner loop stops, no retained pair is split and every cycle is a final one |
| HanAssembly.InstallShrinksPending | tools/fold-han-rare.py:1082-1084 | pulling rows removes exactly them from the rows still to change, which is why the inner loop ends |
| HanAssembly.CloseTouches | tools/fold-han-rare.py:1068-1084 | a tier's fixpoint changes exactly the pulled rows, all of them pending before, to their final rows |
| HanAssembly.CloseTier | tools/fold-han-rare.py:1068-1084 | the loop computes that fixpoint, with the pairs, cycles and missing pairs of its result |
| HanRounds.NeededIsCalledFor | tools/fold-han-rare.py:1068-1083 | a row is pulled next exactly if it still differs and either comes first on the chain of a member of a retained pair the table splits, or has a chain that never ends, and these are its reasons |
| HanRounds.CloseRounds | tools/fold-han-rare.py:1068-1088 | a tier is a run of tables, each with exactly the rows called for made final, up to one that calls for none; its reasons are exactly those of the tables |
| HanRounds.NothingCalledFor | tools/fold-han-rare.py:1068-1085 | a table that splits no retained pair and has no cycle calls for no row |
| HanMigration.TierTouches | tools/fold-han-rare.py:1050-1084 | a tier pulls only rows that differ from the final table and changes nothing else besides its own rows |
| HanMigration.RetainedPairsStayJoined | tools/fold-han-rare.py:1034-1092 | at every tier each pair joined before and after the migration is joined, remaining splits are permanent ones, and cycles are final cycles |
| HanMigration.AcyclicFinalGivesAcyclicTiers | tools/fold-han-rare.py:1068-1090 | an acyclic final table gives acyclic tiers |
| HanMigration.LastTierIsFinal | tools/fold-han-rare.py:1049-1090 | after the last tier the current table equals the final one, readings included |
| HanMigration.FinalStays | tools/fold-han-rare.py:1050-1084 | a row that has become final stays final through every later tier |
| HanMigration.PulledOnce | tools/fold-han-rare.py:1085-1086 | no row is pulled by two tiers |
| HanMigration.FindHomes | tools/fold-han-rare.py:1039-1045 | fails exactly when two tiers share a member; otherwise gives each member its tier and builds the final table |
| HanMigration.PullsAre | tools/fold-han-rare.py:1085-1086 | a tier's pull list holds exactly the pulled rows with their home tier, final row and reasons |
| HanMigration.PullsJustified | tools/fold-han-rare.py:1066-1091 | every pull has a reason, exactly those some table of its tier gave, and every row called for is pulled |
| HanMigration.NothingPulled | tools/fold-han-rare.py:1068-1091 | a tier whose installed table splits no retained pair and has no cycle pulls nothing forward |
| HanMigration.TierOrderIsInOrder | tools/fold-han-rare.py:1036 | the proposed tiers run in the fixed order of the tiers |
| HanMigration.TierIsSound | tools/fold-han-rare.py:1085-1090 | a tier reports no unexpected split, only permanent remaining splits, only final cycles, and exactly the rows it pulled |
| HanMigration.RunIsSound | tools/fold-han-rare.py:1087-1092 | every tier's report is sound, and after the last tier exactly the permanent splits and the final cycles are left |
| HanMigration.PullForward | tools/fold-han-rare.py:1034-1092 | the whole run: fails exactly on an unknown tier or a shared member, and then names one; otherwise the tiers run in their fixed order, no retained pair is split at any, every pull was called for by a table of its tier and carries exactly its reasons, and the end is the final table |
| HanFamilies.BuildGraph | tools/fold-han-rare.py:698-700 | the graph joins exactly the related ideographs, in both directions, with exactly their labels |
| HanFamilies.Component | tools/fold-han-rare.py:708-714 | the stack search collects exactly the ideographs reachable from its start |
| HanFamilies.Components | tools/fold-han-rare.py:702-716 | the components cover the graph once each, ordered by their least members |
| HanFamilies.TargetInComponent | tools/fold-han-rare.py:718-732 | rules, partition keys and choices only ever pick a target inside the component |
| HanFamilies.ResolveIs | tools/fold-han-rare.py:718-728 | the rules give the only BMP member named as simplified; with none, the only general member; with none, the only BMP member; and with none, the only member named as simplified; several of the first kind there is give none |
| HanFamilies.TargetIs | tools/fold-han-rare.py:718-734 | the target is what the rules give, else the one key of a partition that covers the component, else the one requested choice among the members it may name |
| HanFamilies.LabelsAlongAre | tools/fold-han-rare.py:816-826 | the labels recorded are exactly those of the steps of the walk |
| HanFamilies.LabelFamily | tools/fold-han-rare.py:810-820 | every other member of the component gets the target and the union of the labels along a shortest walk from it |
| HanFamilies.FamilyMappings | tools/fold-han-rare.py:793-821 | every member of a component with a target maps to it along a shortest walk, the target itself to nothing; which member it is, is said by membership alone; a component is reported exactly when neither rules nor partition settle it |
| HanFamilies.MappingIsOneStep | tools/fold-han-rare.py:793-821 | the mapping is one step deep and the target is the terminal key of every member, its own included |
| HanEvidence.SortSorts | tools/fold-han-rare.py:435 | the natural order is sorted by precedence and then by source order |
| HanEvidence.PlacedIsSorted | tools/fold-han-rare.py:435-441 | the final order, natural or chosen, is a permutation sorted by precedence |
| HanPrecedence.OutranksIs | tools/fold-han-rare.py:420-426 | the lead decides first, then the mainland readings, then attestation by both lineages, then prediction, then the earlier place in the Mandarin list, then the model |
| HanPrecedence.NaturalIs | tools/fold-han-rare.py:428-436 | no reading stands behind one it outranks or, evidence tying, one a source order puts after it; what nothing tells apart keeps its listing order |
| HanPrecedence.LeadIs | tools/fold-han-rare.py:431-437 | the only standard reading leads, else the customary one, else the best attested; an open standard lets the chosen standard reading lead |
| HanPrecedence.PlacedIsFinal | tools/fold-han-rare.py:435-441 | a choice of the same readings that puts none behind one it outranks is the order; otherwise the natural order is |
| HanReadings.ChoicePermutesTies | tools/fold-han-rare.py:435-441 | with the decisive reading in the lead, every rank has the same precedence as in the natural order |
| HanReadings.BlockIsWholeTie | tools/fold-han-rare.py:450 | a run of equal precedence in a sorted order holds every reading with that precedence |
| HanReadings.SettlingIsTruthful | tools/fold-han-rare.py:456-457 | the source order named for a tie does order its readings that way |
| HanReadings.ReportTies | tools/fold-han-rare.py:450-460 | reports exactly the longest runs of two or more, with their ranks, and the first-rank tie exactly when the evidence is not CNS only |
| HanReadings.OrderedReadings | tools/fold-han-rare.py:407-465 | returns the readings ranked 1 to n in the final order, as the evidence and the choice give it, with exactly the tie, ranking and CNS issues, each once and in report order |
| HanReadings.EveryTieIsReported | tools/fold-han-rare.py:450-460 | any two readings of equal precedence lie inside one reported rank range |
| RadioSafety.RunKeepsInvariant | src/app/AppCore.cpp:2820-2860 | in every run at most one worker carries the current request id, the in-progress flag is set exactly when one does, and loading is shown exactly when one does or a start is pending |
| RadioSafety.InstalledCopyIsCurrent | src/app/AppCore.cpp:2849-2890 | a copy is installed only over the very session it was taken from, with its queue still in place |
| RadioSafety.StepIsAtomic | src/app/AppCore.cpp:2839-2903 | completing with the copy gives the state that scoring on the live session would give |
| RadioSafety.RunIsAtomic | src/app/AppCore.cpp:2820-2911 | every run with workers and copies is a run that scores each batch on the spot |
| RadioSafety.SupersededChangesNothing | src/app/AppCore.cpp:2842-2847 | a completion under an older request id changes nothing |
| RadioSafety.HandleReacts | src/app/AppCore.cpp:482-500 | no player signal changes the session or the queue without the matching revision |
| RadioSafety.CompleteKeeps | src/app/AppCore.cpp:2839-2903 | a completion, installed, retried or dropped, keeps the control invariant |
| RadioSafety.FinishKeeps | src/app/AppCore.cpp:2329-2431 | a finished seeded start, current or superseded, keeps the control invariant |
| RadioEffects.CompletionMeans | src/app/AppCore.cpp:2839-2903 | a superseded completion removes only its worker, a stale one leaves session and queue alone, and an installed one replaces the very session and queue it was taken from, as scoring on the live session would |
| RadioEffects.ChangeOutdates | src/app/AppCore.cpp:2740-2752 | after a direct change of the session every batch in flight is stale |
| RadioEffects.TopUpBegins | src/app/AppCore.cpp:2913-2926 | a refill check begins a batch exactly when the queue has run down and none is in progress |
| RadioEffects.FinishStarts | src/app/AppCore.cpp:2329-2431 | what a finished start achieves, superseded or current, with its seeds gone or prepared |
| RadioEffects.ArtistStarts | src/app/AppCore.cpp:2433-2513 | whatever signals replacing the queue raises, exactly one new batch is current |
| RadioEffects.RefreshRefetches | src/app/AppCore.cpp:2928-2959 | a refresh that goes ahead fetches as many picks as it dropped |
| RadioOutcomes.PendingPicksAre | src/app/AppCore.cpp:2867-2875 | the pending picks are the picks queued after the current row, in queue order |
| RadioOutcomes.CompletionOutcome | src/app/AppCore.cpp:2849-2903 | an installed batch leaves its picks behind the queue, all remembered, the advanced session told of the picks queued ahead, and loading cleared; a stale one leaves a queue that has run down being refilled |
| RadioOutcomes.RefreshMeans | src/app/AppCore.cpp:2928-2959 | a refresh goes ahead exactly with picks below the row and forgets exactly those |
| RadioProgress.CallbackProgress | src/app/AppCore.cpp:2849-2859 | every pending callback, a worker, a seeded start or a queued refill check, lowers a bound on the callbacks still to come, retries included |
| RadioProgress.TimerProgress | src/app/AppCore.cpp:482-488 | a queued refill check that begins a batch still lowers the bound |
| RadioProgress.QuietMeansNotLoading | src/app/AppCore.cpp:2655-2662 | with no worker and no start pending, nothing is in progress and loading is cleared |
| RadioProgress.CallbacksClearLoading | src/app/AppCore.cpp:2425-2431 | once mutations cease, a run of callbacks of all three kinds ends within the bound, and loading is cleared when none is left |
| AppCore.RadioController.constructor | src/app/AppCore.cpp:590-600 | starts idle, on a restored session or none, in the control invariant |
| AppCore.RadioController.SetRadioLoading | src/app/AppCore.cpp:2655-2662 | changes the loading flag and nothing else |
| AppCore.RadioController.ReconcileRadioPendingState | src/app/AppCore.cpp:1855-1873 | the session revision moves exactly when the session changed, nothing a batch in flight depends on changes otherwise, and the control invariant is kept |
| AppCore.RadioController.SyncRadioShuffleSession | src/app/AppCore.cpp:2174-2247 | afterwards there is a shuffle session exactly when shuffle is in radio mode, no radio runs and one could be built; a running radio keeps its session and the control invariant |
| AppCore.RadioController.OnQueueChanged | src/app/AppCore.cpp:489-500 | while radio is active every queue change moves the queue revision, so that no batch taken before can be installed; the session revision moves exactly with the session; the invariant is kept |
| AppCore.RadioController.OnIndexChanged | src/app/AppCore.cpp:482-488 | an index change queues exactly one refill check and keeps the invariant |
| AppCore.RadioController.OnTrackStarted | src/app/AppCore.cpp:936-945 | a track the session hears of moves the session revision, the session never changes without it, and the invariant is kept |
| AppCore.RadioController.ProvideTracks | src/app/AppCore.cpp:2126-2172 | the session revision stays exactly when nothing was picked and the session is as it was; the invariant is kept |
| AppCore.RadioController.AppendRadioBatch | src/app/AppCore.cpp:2820-2860 | a batch of the size is in flight on a copy of the live session and queue under current stamps, unless one was in progress, and then nothing changes |
| AppCore.RadioController.OnBatchFinished | src/app/AppCore.cpp:2839-2903 | keeps the control invariant; a superseded completion removes only its worker; a stale one leaves session, queue and picks alone; an installed one appends its picks to the queue, remembers them, makes the advanced session live and clears loading, and does so over the very session and queue it was taken from |
| AppCore.RadioController.MaybeTopUpRadioQueue | src/app/AppCore.cpp:2913-2926 | a full batch is begun exactly when the queue has run down to the threshold and none is in progress, and otherwise nothing changes |
| AppCore.RadioController.OnTopUpTimer | src/app/AppCore.cpp:484-487 | a queued refill check leaves session and queue alone, keeps the invariant, and afterwards a queue that has run down is being refilled |
| AppCore.RadioController.SetRadioRefillThreshold | src/app/AppCore.cpp:2772-2780 | the threshold lies within its bounds, the invariant is kept, and a queue that has run down under the new threshold is being refilled |
| AppCore.RadioController.ChangeRadioSession | src/app/AppCore.cpp:2740-2752 | keeps the invariant, and no batch in flight can be installed over the changed session |
| AppCore.RadioController.StartSeededRadio | src/app/AppCore.cpp:2254-2327 | supersedes everything in flight; radio is active without a session, loading is shown and one start is pending under the new request; the invariant is kept |
| AppCore.RadioController.FinishSeededRadioStart | src/app/AppCore.cpp:2329-2431 | a superseded start only stops pending; the current one ends the radio if its seeds are gone, and otherwise makes the prepared session live with the rest of the first batch on its way or loading cleared; the invariant is kept |
| AppCore.RadioController.StartArtistRadio | src/app/AppCore.cpp:2433-2513 | supersedes everything in flight, and exactly the rest of the first batch is on its way, or none with loading cleared; replacing the queue begins no other; the invariant is kept |
| AppCore.RadioController.StartPoolRadio | src/app/AppCore.cpp:2545-2630 | supersedes everything in flight; radio runs with nothing in flight and nothing loading, replacing the queue begins no batch, and the invariant is kept |
| AppCore.RadioController.StopRadioSession | src/app/AppCore.cpp:2632-2653 | supersedes everything in flight; radio is off, nothing loads, no pick is remembered, and a session left is a shuffle session; the invariant is kept |
| AppCore.RadioController.RefreshRadioPicksBelow | src/app/AppCore.cpp:2928-2959 | goes ahead exactly when there are picks below the row and no batch is in progress, then fetches as many new ones; otherwise nothing changes; the invariant is kept |
| SongIdentity.TrackMatchRows | src/db/Database.cpp:1377-1428 | returns exactly the rows not missing whose path or recording is listed, or, without a recording, whose indexed fallback key is, for key lists of any length |
| SongIdentity.SongKeyIsName | src/core/FoldKey.h:25-31 | fallback keys are equal exactly for equal folded artist and equal folded title |
| SongIdentity.CollectIdentities | src/app/AppCore.cpp:1227-1288 | the frontier search ends and collects exactly the rows connected to the start in the whole library |
| SongComponents.PathsConnectedToTrack | src/features/SongIdentity.cpp:145-224 | the search over given tracks returns exactly the paths connected to the target among them |
| SongComponents.NarrowSearchKeepsAll | src/app/AppCore.cpp:1290 | the narrow search over the collected rows loses none of them |
| SongComponents.PathsForSongKeyOfTrack | src/app/AppCore.cpp:1221-1292 | the result is exactly the paths of the component, or the path alone when no visible row has it; links are equal groups, equal recordings, or equal folded artist and equal folded title without recordings |
| UnionFind.CompressionKeeps | src/features/SongIdentity.cpp:24-30 | shortening a pointer to the root moves no root |
| UnionFind.LinkMerges | src/features/SongIdentity.cpp:32-46 | union by rank merges two sets and keeps every rank below its parent's |
| UnionFind.UnionFind.Find | src/features/SongIdentity.cpp:24-30 | returns the root and leaves every element's root as it was |
| UnionFind.UnionFind.Unite | src/features/SongIdentity.cpp:32-46 | merges the sets of the two elements and nothing else |
| SongKeys.UniteAll | src/features/SongIdentity.cpp:69-101 | two tracks end in one set exactly when a chain of shared groups, recordings or fallback keys links them |
| SongKeys.DescriptionIsUnique | src/features/SongIdentity.cpp:103-125 | the least members that name a set are determined by the set, not by the order of the tracks |
| SongKeys.SameKeyIffLinked | src/features/SongIdentity.cpp:62-143 | two tracks have the same resolved key exactly when they are linked |
| SongKeys.KeyNamesLeast | src/features/SongIdentity.cpp:103-140 | a key says the least group of the component, else its least recording, else its least fallback key |
| SongKeys.ResolvedSongKeys | src/features/SongIdentity.cpp:62-143 | every nonempty path has the key that names the component of its last track, under the links of equal group, recording, or folded artist and title; no other path has a key |
| SongKeys.KeysAgreeWithSearch | src/features/SongIdentity.cpp:62-224 | the keys of the whole library and the narrow search agree on which paths are one song |
| LibraryMigration.KeptIsOldest | src/db/Database.cpp:800-834 | the surviving row of a group is its least id and carries the group's key |
| LibraryMigration.DeleteDuplicates | src/db/Database.cpp:828-834 | the deletion leaves exactly the oldest row of each group, in whatever order rows are visited |
| LibraryMigration.MeaningKept | src/db/Database.cpp:800-834 | the album title and artist name a reference stands for are unchanged, dangling references included |
| LibraryMigration.MigrationKeeps | src/db/Database.cpp:800-834 | every track and artwork row keeps its reference and what it stands for, none is dropped or made up, and every surviving row keeps its other columns |
| LibraryMigration.OldestLeft | src/db/Database.cpp:800-834 | of the rows that are one artist, or one album, exactly the one with the least id survives |
| LibraryMigration.ArtistNamesKept | src/db/Database.cpp:832-834 | no artist name is lost or invented |
| LibraryMigration.AlbumsKept | src/db/Database.cpp:828-831 | every album survives under its title and artist name |
| LibraryMigration.ReferencesKept | src/db/Database.cpp:800-834 | no reference dangles afterwards if none did before |
| LibraryMigration.KeysAreUnique | src/db/Database.cpp:828-834 | artist names and (title, artist id) pairs are unique afterwards |
| LibraryMigration.MeaningsAreUnique | src/db/Database.cpp:828-834 | titles are unique per artist name afterwards |
| LibraryMigration.DeletedRowsAreUnreferenced | src/db/Database.cpp:786-790 | no reference is left to a deleted row, so no foreign key blocks the cleanup |
| LibraryMigration.CollapsedIsStable | src/db/Database.cpp:799-836 | the statements applied to their own result change nothing |
| LibraryMigration.Database.MigrateTo17 | src/db/Database.cpp:791-843 | runs the statements once and records the version; every reference and surviving row keeps its meaning, exactly the oldest rows survive, names and albums are unique and none is lost; a later run changes nothing |
| ScanSession.AlbumCacheKeyInjective | src/db/Database.cpp:1026 | different (artist id, title) pairs never share a cache key, even when a title holds the separator |
| ScanSession.SelectAfterInsert | src/db/Database.cpp:1005-1013 | an inserted row is found under its key, hides nothing else and keeps keys unique |
| ScanSession.SafeName | src/db/Database.cpp:987 | the name without the white space around it; a blank one is stored as unknown |
| ScanSession.Database.UpsertArtist | src/db/Database.cpp:985-1019 | the result and the table are those of select-or-insert, memo or not; a remembered name runs no statement; a failing statement gives 0 and neither stores nor remembers anything; every memo entry stays what the query would return |
| ScanSession.Database.UpsertAlbum | src/db/Database.cpp:1021-1062 | the same for albums |
| ScanSession.Database.RollbackTransaction | src/db/Database.cpp:951-960 | restores the tables and forgets every memo entry, so the memo stays right |
| ScanSession.Database.CommitTransaction | src/db/Database.cpp:962-969 | keeps the memo right and keys unique |
| ScanSession.Database.BeginScanSession | src/db/Database.cpp:971-976 | starts with an empty memo |
| ScanSession.Database.EndScanSession | src/db/Database.cpp:978-983 | leaves an empty memo |
| SearchRevision.ProjectionSeesTracked | src/db/Database.cpp:2893-2910 | stores that agree on the tracked columns project to the same records |
| SearchRevision.ProjectionHolds | src/db/Database.cpp:2893-2910 | exactly the present, scanned tracks under enabled roots and all MPD tracks are searchable, each with every column and its overlay rows |
| SearchRevision.SilentWriteIsUntracked | src/db/SearchRevision.cpp:76-87 | a write that fires no trigger changes no tracked column |
| SearchRevision.Database.WriteRow | src/db/SearchRevision.cpp:82-85 | exactly the row of the write changes; the revision moves by one exactly when the trigger is there and, for an update, a tracked column differs |
| SearchRevision.Database.EnsureSearchRevision | src/db/SearchRevision.cpp:37-89 | a missing identity or trigger gives a new identity, revision zero and every trigger; a complete store is left alone |
| SearchSnapshots.RunKeeps | src/search/SearchWorker.cpp:60-79 | in every interleaving of writers, opened connections, snapshots, cache writes and trigger loss, each stamp of a complete store stands for one set of tracked rows |
| SearchSnapshots.CacheHitIsCurrent | src/cli/SearchCli.cpp:71-92 | a cache whose stamp equals a snapshot's holds exactly its projection, if both the snapshot and the one the cache was written from have every trigger |
| SearchSnapshots.GuaranteeIsExact | src/cli/SearchCli.cpp:83-92 | the guarantee over all runs holds exactly under both of those conditions |
| SearchSnapshots.ReaderWithoutTriggers | src/search/SearchWorker.cpp:60-79 | a run in which a snapshot on a long-open connection accepts a cache that is not current |
| SearchSnapshots.WriterWithoutTriggers | src/search/SearchWorker.cpp:60-79 | a run in which a cache written without triggers is accepted by an older snapshot |
| SearchCli.TrackSearchCursor.constructor | src/db/Database.cpp:3008-3014 | before the first batch, all local rows and then all MPD rows lie ahead, up to a statement error |
| SearchCli.TrackSearchCursor.AdvancePhase | src/db/Database.cpp:3016-3021 | moving on from a drained statement changes nothing of what lies ahead |
| SearchCli.TrackSearchCursor.NextBatch | src/db/Database.cpp:3023-3059 | for every batch size, batches take the rows ahead in order, none is empty, only the last is short, and an error ends the stream |
| SearchCli.ReadAll | src/cli/SearchCli.cpp:38-57 | draining ends with all local and then all MPD rows, or with an error and nothing |
| SearchCli.ReasonIsHit | src/search/IndexCache.cpp:187-198 | the reason is a hit exactly when the valid signatures agree in every field |
| SearchCli.ReasonNames | src/search/IndexCache.cpp:187-198 | the reason names the first field in which the signatures differ |
| SearchCli.Loader.LoadIndex | src/cli/SearchCli.cpp:61-103 | the index is filled from exactly one whole source or not touched; flags, reason and rewritten cache are exact; with a sound cache the records are the current ones |
| SearchCli.Loader.StreamRecords | src/cli/SearchCli.cpp:105-166 | ok exactly when the sink received one whole source, never part of a cache followed by the database; with a sound cache the records are the current ones |
| SearchCache.HitIsSound | src/cli/SearchCli.cpp:83-92 | after any run of the snapshot world the loader's cache is sound, so that the two loads are current without further assumption |
| SearchCache.LoadIndexAfter | src/cli/SearchCli.cpp:61-103 | after any run a filled index is the projection of the snapshot, and the cache file is that of the world, with this publication if there was one |
| SearchCache.StreamRecordsAfter | src/cli/SearchCli.cpp:105-166 | the same for the records streamed |
| Ratings.NormalizedIsNearest | src/core/Rating.cpp:5-13 | normalising gives a nearest storable rating and changes no storable one |
| Ratings.FormsAgree | src/db/Database.cpp:218-242 | the SQL and C++ effective ratings are equal exactly outside one family of stored values |
| Ratings.WantedWriteShows | src/scanner/RatingTagSyncWorker.cpp:44-78 | a wanted write carried through makes the track show the rating and clears its pending row |
| Ratings.Database.SetUserTrackRating | src/db/Database.cpp:1814-1833 | the track shows the new rating at once under an overlay or without a scanned one, and otherwise its scanned rating; other tracks show what they showed; a negative rating is refused |
| Ratings.Database.ClearUserTrackRating | src/db/Database.cpp:1866-1876 | the track shows its scanned rating, and the other tracks what they showed |
| Ratings.Database.SetPendingTrackRatingWrite | src/db/Database.cpp:1937-1965 | with the user row of the same rating, an overlaid pending row makes the track show it; a bad rating or status is refused |
| Ratings.Database.ClearPendingTrackRatingWrite | src/db/Database.cpp:1966-1978 | a row for another rating survives and everything stays as it is; no pending row is paired with another user rating |
| Ratings.Database.RecordRatingWriteFailure | src/db/Database.cpp:1980-2001 | never replaces another rating's pending row or pairs one with another user rating, and leaves the rating the user still has on show |
| Ratings.Database.UpdateScannedTrackRating | src/db/Database.cpp:2038-2059 | the re-read rating of an existing track shows unless an overlay hides it, and then the track shows what it showed |
| Ratings.Database.MayWrite | src/scanner/RatingTagSyncWorker.cpp:44-52 | a write it allows, carried through undisturbed, shows and leaves nothing pending; a rating the user no longer has is refused |
| Ratings.Database.TracksWithPendingRatingWrites | src/db/Database.cpp:2018-2035 | lists exactly the tracks with an overlaid pending row, each with its rating |
| RatingSync.StepKeepsInvariant | src/scanner/RatingTagSyncWorker.cpp:28-80 | every statement of GUI, worker and scanner keeps the store invariant |
| RatingSync.PendingCarriesUserRating | src/app/AppCore.cpp:3252-3264 | in every run a pending row carries the same rating as the user row, except between the two statements of a command |
| RatingSync.OlderCompletionKeepsNewer | src/db/Database.cpp:1966-2001 | a completion or failure for one rating never touches the pending row of another |
| RatingSync.FailureIsRecorded | src/scanner/RatingTagSyncWorker.cpp:54-88 | a failed write is recorded with its reason for a rating the user still has, and otherwise changes nothing |
| RatingSync.RateSettles | src/app/AppCore.cpp:3254-3259 | completing a rate command settles its rating whatever is in flight, except exactly when the worker is about to reconcile an equal rating over another reading |
| RatingSync.StepKeepsSettled | src/scanner/RatingTagSyncWorker.cpp:50-78 | only a user command on the track or a harmful scan result unsettles a rating |
| RatingSync.HarmIsExact | src/db/Database.cpp:1097-1113 | a scan result is harmless exactly when the rating is held after it is stored and after the worker's next step |
| RatingSync.SettledIsKeptExactly | src/db/Database.cpp:1097-1113 | a settled rating is shown in every state of a run exactly if each scan result the run stores is harmless |
| RatingSync.RateIsShown | src/app/AppCore.cpp:3252-3264 | from the completion of a rate command until the next user command on the track it shows that rating, pending, overtaken or drained, if and only if the completion is not undermined and every scan result stored meanwhile for that track is harmless; other tracks and the history before do not matter |
| RatingSync.CurrentScansShowRating | src/app/AppCore.cpp:3252-3264 | scans that store what the track's file says when they store it are enough |
| RatingSync.StaleScanLosesRating | src/db/Database.cpp:1097-1113 | a run in which a stale scan result makes the track show the old rating |
| PlaylistDatabase.ListIsUnique | src/db/PlaylistDatabase.cpp:316-350 | the rows of a playlist determine one sequence without repeats, at ordinals 0 to n-1 |
| PlaylistDatabase.Database.NextOrdinal | src/db/PlaylistDatabase.cpp:354-360 | the greatest ordinal plus one, or zero for an empty playlist |
| PlaylistDatabase.Database.AddItem | src/db/PlaylistDatabase.cpp:352-389 | adds one row at the next ordinal, or nothing for an unknown playlist |
| PlaylistDatabase.Database.RemoveItem | src/db/PlaylistDatabase.cpp:421-455 | the item leaves the sequence of whichever playlist has it, every other sequence and all contents stay; an unknown id fails and changes nothing |
| PlaylistDatabase.Database.ReorderItems | src/db/PlaylistDatabase.cpp:493-519 | the listed order results exactly when it is a permutation; other playlists keep theirs; when a statement fails every sequence stays |
| PlaylistDatabase.AddAppends | src/db/PlaylistDatabase.cpp:352-389 | adding appends, and other playlists keep their sequences |
| PlaylistDatabase.RemoveDeletes | src/db/PlaylistDatabase.cpp:446-453 | removing deletes at the position, and other playlists keep their sequences |
| PlaylistDatabase.ReorderGivesPermutation | src/db/PlaylistDatabase.cpp:493-519 | the listed order results exactly when it is a permutation of the items |
| PlaylistDatabase.ReorderKeepsOthers | src/db/PlaylistDatabase.cpp:501-505 | reordering leaves the other playlists alone |
| PlaylistDatabase.RunRefines | src/db/PlaylistDatabase.cpp:352-519 | after any run the rows represent exactly the sequences the same commands build |
| Utf16.DecodeEncode | tools/foldgen.py:207-208 | decoding an encoded text gives it back (sections 2.1 and 2.2 of RFC 2781) |
| Foldgen.PackRoundTrip | tools/foldgen.py:59-66 | packing succeeds exactly within its bounds, fits 32 bits, and unpacking gives the fields back |
| Foldgen.Pool.Add | tools/foldgen.py:204-212 | a new text goes to the end, a known one changes nothing, and every slice handed out stays valid |
| Foldgen.SlicesAreInjective | tools/foldgen.py:197-212 | different texts never share a slice |
| Foldgen.ReadIsStable | tools/foldgen.py:204-212 | an entry keeps its reading while the pool grows |
| Foldgen.EntryFor | tools/foldgen.py:611-666 | reading a character's entry gives what the character wants, script and form bit included, and the form beside it is the wanted one; there is no entry only for want of room |
| Foldgen.AsciiFolds | tools/foldgen.py:616-621 | below 0x80 capitals fold to their small letters, dropped controls to nothing and all else to itself |
| Foldgen.WantedIs | tools/foldgen.py:624-650 | which of handler, compatible handler, expansion and text a character gets, with its form |
| Foldgen.EmittedTextDecodes | tools/foldgen.py:630-650 | the units an entry emits decode to the text stored for it |
| FoldTables.LookupFinds | src/search/fold/FoldData.cpp:11-16 | the lookup in a sorted table finds exactly its rows |
| FoldTables.AstralHan | tools/foldgen.py:1284-1289 | the ranges of the fallback are exactly the astral ideographs that may be left out |
| FoldTables.OverrideJamo | tools/foldgen.py:946-948 | the rewritten entries call the Hangul handler with the payload of the jamo; all other entries stay |
| FoldTables.PayloadIs | tools/foldgen.py:918-931 | syllables have payload 0, modern initials, vowels and finals payloads of their own, all else 127 |
| FoldTables.Build | tools/foldgen.py:935-965 | every code point, the surrogates included, is looked up in the finished tables as expected, with the form its handler reads; there are no tables exactly when a built character is too big or the pool is full |
| FoldTables.LookupIsExpected | src/search/fold/FoldData.cpp:11-65 | the engine learns of a code point what its character wants, from its row or from the fallback where it has none |
| FoldTables.ExpectedIsWanted | tools/foldgen.py:944-964 | leaving characters out and rewriting the jamo changes no output and no form, and no script except of a character that stands for itself inside a Han range |
| FoldTables.LeftOutIs | tools/foldgen.py:949-958 | exactly the unassigned astral characters and the astral ideographs without a simplified form get no entry, and then the fallback answers |
| FoldTables.JamoIsSingle | tools/foldgen.py:944-948 | the rewritten entries say what they said before |
| HumanQuantity.ParseDuration | src/core/HumanQuantity.cpp:37-45 | the running total is the base-60 value of the components |
| HumanQuantity.SignedNumeral | src/core/HumanQuantity.cpp:42 | digits give their value, negated after a minus, if it fits 64 bits, and 0 otherwise |
| HumanQuantity.DurationForm | src/core/HumanQuantity.cpp:8-17 | unpadded minutes and exactly two digits of seconds |
| HumanQuantity.ClockForm | src/core/HumanQuantity.cpp:19-35 | hours exactly from an hour on, and then two digits of minutes |
| HumanQuantity.DurationRoundTrip | src/core/HumanQuantity.cpp:8-17 | parsing a printed duration rounds it down to whole seconds |
| HumanQuantity.ClockRoundTrip | src/core/HumanQuantity.cpp:19-35 | the same for the form with hours |

## Left out

- Han partial links: the stage of `family_mappings` that admits links of the partial fields by lineage score (tools/fold-han-rare.py:759-791), the reviewed exclusions, and the texts of issues and details; the model starts from the admitted relations and reports open components as a set.
- HanFamilies.FamilyMappings: assumes that a partition key lies in the component of each member it is recorded for, which `reviewed_families` checks.
- HanMigration.PullForward: leaves out the per-tier counts of home tiers and the textual form of a pull.
- HanReadings.OrderedReadings: evidence fields, the model rank and source orders are parameters; unparseable readings are not reported; a tie report after a rejected choice follows the choice's lead, as in the code, and is not claimed complete.
- AppCore.RadioController.FinishSeededRadioStart: the seed lookup, scoring pools and profiles are the outcome parameter.
- AppCore.RadioController.OnBatchFinished: the scoring, the resolution of picks and the never-radio flags are one opaque function of the session, the excluded queue and the pending picks.
- Radio session: opaque; a mutation is seen as a changed value where the code compares a generation counter. Request and revision counters do not wrap. A session is restored only in the constructor.
- SongComponents.PathsForSongKeyOfTrack: the result is a set; its case-insensitive sort is left out. The index is assumed to hold the key of every row, as its writers keep it. Case folding is a parameter whose results hold no newline.
- HanPrecedence.PlacedIsFinal: lists and source positions stay below the largest index.
- SongKeys.UniteAll: the three tables of first tracks are one table over tagged values, and the disjoint sets hold sequences.
- LibraryMigration.Database.MigrateTo17: a failing statement is not modelled; the other schema versions only add easy members.
- ScanSession.Database.UpsertArtist: sort names and the other columns of an inserted row are left out; trimming knows the ASCII white space only; row ids grow by one.
- SearchRevision.Database.EnsureSearchRevision: the form of an identity is reduced to a nonempty string, and a new identity is one never issued before.
- SearchSnapshots.CacheHitIsCurrent: replacing the file by an older copy of the same database is not a step; losing triggers and identity, and any write while they are lost, are.
- SearchCli.TrackSearchCursor.NextBatch: the order of rows within one statement is the statement's own; string interning is left out.
- SearchCli.Loader.LoadIndex: the file format, compression and chunk limits of the cache are reduced to missing, bad header, or records that break off.
- Ratings.Database.RecordRatingWriteFailure: failing statements, time stamps and error texts are left out.
- RatingSync.RateIsShown: files are changed by the write-back worker only, and there is one worker at a time; any number of scan readings may be held.
- RadioProgress.CallbacksClearLoading: a completion appends behind the current row, so that the signals it raises move no index once mutations have ceased.
- PlaylistDatabase.Database.RemoveItem: failing statements are modelled for the reorder only; names, time stamps and cascading deletion of playlists are left out.
- Foldgen.EntryFor: the Unicode tables, the primary fold, the handlers' own tables and the folds they describe are parameters.
- FoldTables.ExpectedIsWanted: that unassigned characters and plain ideographs fold to themselves is taken from the Unicode tables and the primary fold; the other tables enter through the texts they put into the pool.
- HumanQuantity.ParseDuration: totals beyond 64 bits do not wrap; trimming knows the ASCII white space only.
- Everything that would only add easy members: settings, tags, scrobbling, user interface, inter-process messages, ranking and fuzzy matching of search results.
