/**
  Reading the search records: the streaming cursor over the local rows and then
  the MPD rows, and the command line's choice between the cache and the database.
*/
module SearchCli {
  import opened Wrappers

  /** What running a statement yields: its rows, unless it fails to start or fails after some rows. */
  datatype Fault = NoFault | AtStart | AfterRows(count: nat)

  datatype Statement<R> = Empty | Sql(rows: seq<R>, fault: Fault)

  function RowsOf<R>(s: Statement<R>): seq<R> {
    if s.Empty? then [] else s.rows
  }

  /** The rows that come out before the fault, if any. */
  function Readable<R>(s: Statement<R>): seq<R> {
    if s.Empty? || s.fault.AtStart? then []
    else if s.fault.AfterRows? && s.fault.count < |s.rows| then s.rows[..s.fault.count]
    else s.rows
  }

  /** The statement ends in an error. */
  predicate Faulty<R>(s: Statement<R>) {
    s.Sql? && s.fault != NoFault
  }

  lemma Shift<R>(taken: seq<R>, row: R, rest: seq<R>, tail: seq<R>)
    requires rest == [row] + tail
    ensures (taken + [row]) + tail == taken + rest && |tail| < |rest|
  {
  }

  datatype Phase = Local | Mpd | Done

  class TrackSearchCursor<R> {
    const localSql: Statement<R>
    const mpdSql: Statement<R>
    var phase: Phase
    var execed: bool
    var position: nat
    var error: bool

    constructor (localSql: Statement<R>, mpdSql: Statement<R>)
      ensures this.localSql == localSql && this.mpdSql == mpdSql && !error
      ensures Valid() && Remaining() == Readable(localSql) + if Faulty(localSql) then [] else Readable(mpdSql)
      ensures WillFail() <==> Faulty(localSql) || Faulty(mpdSql)
    {
      this.localSql, this.mpdSql := localSql, mpdSql;
      phase, execed, position, error := Local, false, 0, false;
    }

    function Current(): Statement<R>
      reads this`phase
    {
      if phase == Local then localSql else if phase == Mpd then mpdSql else Empty
    }

    predicate Valid()
      reads this
    {
      position <= |Readable(Current())| && (!execed ==> position == 0) &&
      (execed ==> Current().Sql? && !Current().fault.AtStart?) && (error ==> phase == Done)
    }

    /** The rows still to come out. */
    function Remaining(): seq<R>
      requires Valid()
      reads this
    {
      Readable(Current())[position..] +
      if phase == Local && !Faulty(localSql) then Readable(mpdSql) else []
    }

    /** An error lies ahead. */
    predicate WillFail()
      reads this
    {
      match phase
      case Local => Faulty(localSql) || Faulty(mpdSql)
      case Mpd => Faulty(mpdSql)
      case Done => error
    }

    method AdvancePhase()
      requires Valid() && phase != Done && !error
      requires !Faulty(Current()) && position == |Readable(Current())|
      modifies this
      ensures Valid() && Remaining() == old(Remaining()) && WillFail() == old(WillFail()) && !error
      ensures phase == if old(phase) == Local then Mpd else Done
    {
      execed := false;
      position := 0;
      phase := if phase == Local then Mpd else Done;
    }

    /** The phases still to drain. */
    function PhasesLeft(): nat
      reads this`phase
    {
      if phase == Local then 2 else if phase == Mpd then 1 else 0
    }

    method Fail()
      requires Valid() && phase != Done && WillFail()
      modifies this
      ensures Valid() && error && phase == Done && WillFail()
    {
      error := true;
      phase := Done;
      execed, position := false, 0;
    }

    /** One turn of the batch loop: a row, the next phase, or the error that lies ahead. */
    method Turn() returns (row: Option<R>)
      requires Valid() && phase != Done
      modifies this
      ensures Valid() && WillFail() == old(WillFail())
      ensures row.Some? ==> !error && old(Remaining()) == [row.value] + Remaining() && PhasesLeft() == old(PhasesLeft())
      ensures row.None? && !error ==> Remaining() == old(Remaining()) && PhasesLeft() < old(PhasesLeft())
      ensures error ==> row.None? && old(Remaining()) == [] && old(WillFail())
    {
      row := None;
      var sql := Current();
      if !execed {
        if sql.Empty? {
          AdvancePhase();
          return;
        }
        if sql.fault.AtStart? {
          Fail();
          return;
        }
        execed := true;
      }
      if position < |Readable(sql)| {
        row := Some(Readable(sql)[position]);
        position := position + 1;
        assert old(Remaining()) == [row.value] + Remaining();
      } else if Faulty(sql) {
        Fail();
      } else {
        AdvancePhase();
      }
    }

    /**
      The next batch.  Until an error, batches take the remaining rows in order,
      none is empty, and only the last is short.  On an error the rows of the
      unfinished batch are in out, but the caller is told to stop.
    */
    method NextBatch(maxRows: int) returns (more: bool, out: seq<R>)
      requires Valid()
      modifies this
      ensures Valid() && WillFail() == old(WillFail())
      ensures !error ==> out + Remaining() == old(Remaining())
      ensures error ==> !more && out == old(Remaining()) && old(WillFail())
      ensures more ==> out != [] && |out| <= (if maxRows < 1 then 1 else maxRows)
      ensures more && |out| < maxRows ==> phase == Done
      ensures !more && !error ==> out == [] && Remaining() == [] && !WillFail()
    {
      var limit := if maxRows < 1 then 1 else maxRows;
      out := [];
      ghost var ahead, fails := Remaining(), WillFail();
      while |out| < limit && phase != Done
        invariant Valid() && |out| <= limit && WillFail() == fails
        invariant out + Remaining() == ahead
        invariant phase != Done ==> !error
        invariant error ==> out == []
        decreases |Remaining()| + PhasesLeft()
      {
        ghost var rest := Remaining();
        var row := Turn();
        if error {
          return false, out;
        }
        if row.Some? {
          Shift(out, row.value, rest, Remaining());
          out := out + [row.value];
        }
      }
      more := phase != Done || out != [];
    }
  }

  const BATCH := 4096

  lemma Regroup<R>(a: seq<R>, b: seq<R>, c: seq<R>)
    ensures a + (b + c) == (a + b) + c && |c| <= |b + c| && (b != [] ==> |c| < |b + c|)
  {
  }

  /**
    Drains a cursor into one list, stopping at an error.  On an error the rows
    of the unfinished batch are dropped, so what was taken is a prefix.
  */
  method Drain<R>(cursor: TrackSearchCursor<R>) returns (all: seq<R>)
    requires cursor.Valid() && !cursor.error
    modifies cursor
    ensures cursor.error == old(cursor.WillFail())
    ensures all <= old(cursor.Remaining())
    ensures !cursor.error ==> all == old(cursor.Remaining())
  {
    all := [];
    ghost var everything, fails := cursor.Remaining(), cursor.WillFail();
    while true
      invariant cursor.Valid() && !cursor.error
      invariant cursor.WillFail() == fails
      invariant all + cursor.Remaining() == everything
      decreases |cursor.Remaining()|
    {
      ghost var before := cursor.Remaining();
      var more, batch := cursor.NextBatch(BATCH);
      if !more {
        break;
      }
      Regroup(all, batch, cursor.Remaining());
      all := all + batch;
    }
  }

  /** Every local row and then every MPD row. */
  function AllRows<R>(localSql: Statement<R>, mpdSql: Statement<R>): seq<R> {
    RowsOf(localSql) + RowsOf(mpdSql)
  }

  /** All rows, or an error and nothing. */
  method ReadAll<R>(localSql: Statement<R>, mpdSql: Statement<R>) returns (all: seq<R>, failed: bool)
    ensures failed <==> Faulty(localSql) || Faulty(mpdSql)
    ensures all == if failed then [] else AllRows(localSql, mpdSql)
  {
    var cursor := new TrackSearchCursor<R>(localSql, mpdSql);
    all := Drain(cursor);
    if cursor.error {
      return [], true;
    }
    failed := false;
  }

  // ---- the cache or the database ---------------------------------------------

  datatype Signature = Signature(formatVersion: int, foldVersion: int, schemaVersion: int,
                                 databaseId: string, databasePath: string, contentRevision: int)
  {
    predicate Valid() {
      databaseId != "" && databasePath != "" && contentRevision >= 0
    }
  }

  /** A part of the signature is missing. */
  predicate IsUnusable(s: Signature) {
    s.databaseId == "" || s.databasePath == "" || s.contentRevision < 0
  }

  const NO_SIGNATURE := Signature(0, 0, 0, "", "", -1)

  /**
    The cache file: absent; damaged in its header; or a good header followed by
    records, which break off after those listed unless the file is complete.
  */
  datatype CacheFile<R> =
    | Missing
    | BadHeader(stored: Signature)
    | Body(stamp: Signature, records: seq<R>, complete: bool)

  function MismatchReason(cached: Signature, current: Signature): string {
    if !current.Valid() then "invalid-source"
    else if !cached.Valid() then "invalid-cache"
    else if cached.formatVersion != current.formatVersion then "format-version"
    else if cached.foldVersion != current.foldVersion then "fold-version"
    else if cached.schemaVersion != current.schemaVersion then "schema-version"
    else if cached.databaseId != current.databaseId then "database-identity"
    else if cached.databasePath != current.databasePath then "database-path"
    else if cached.contentRevision != current.contentRevision then "content-revision"
    else "hit"
  }

  /** The reason is "hit" exactly for a valid signature that equals the current one in every field. */
  lemma ReasonIsHit(cached: Signature, current: Signature)
    ensures MismatchReason(cached, current) == "hit" <==> cached == current && current.Valid()
  {
    assert "hit"[0] == 'h';
    assert "invalid-source"[0] == 'i' && "invalid-cache"[0] == 'i';
    assert "format-version"[0] == 'f' && "fold-version"[0] == 'f' && "schema-version"[0] == 's';
    assert "database-identity"[0] == 'd' && "database-path"[0] == 'd' && "content-revision"[0] == 'c';
  }

  /** The reason names the first field, in this order, in which two valid signatures differ. */
  ghost predicate NamesDifference(reason: string, cached: Signature, current: Signature) {
    (cached.formatVersion != current.formatVersion ==> reason == "format-version") &&
    (cached.formatVersion == current.formatVersion ==>
      (cached.foldVersion != current.foldVersion ==> reason == "fold-version") &&
      (cached.foldVersion == current.foldVersion ==>
        (cached.schemaVersion != current.schemaVersion ==> reason == "schema-version") &&
        (cached.schemaVersion == current.schemaVersion ==> NamesDatabase(reason, cached, current))))
  }

  ghost predicate NamesDatabase(reason: string, cached: Signature, current: Signature) {
    (cached.databaseId != current.databaseId ==> reason == "database-identity") &&
    (cached.databaseId == current.databaseId ==>
      (cached.databasePath != current.databasePath ==> reason == "database-path") &&
      (cached.databasePath == current.databasePath && cached.contentRevision != current.contentRevision ==>
         reason == "content-revision"))
  }

  lemma ReasonNames(cached: Signature, current: Signature)
    requires cached.Valid() && current.Valid()
    ensures NamesDifference(MismatchReason(cached, current), cached, current)
  {
  }

  lemma NotHit()
    ensures "hit" !in {"", "forced-refresh", "missing-cache", "invalid-cache"}
  {
    assert "hit"[0] == 'h' && "forced-refresh"[0] == 'f' && "missing-cache"[0] == 'm' && "invalid-cache"[0] == 'i';
  }

  datatype Streamed<R> = Streamed(ok: bool, signature: Signature, sunk: seq<R>)

  /** Reads the file record by record; `expected` is checked before any record comes out. */
  function ForEachRecord<R>(file: CacheFile<R>, expected: Option<Signature>): Streamed<R> {
    match file
    case Missing => Streamed(false, NO_SIGNATURE, [])
    case BadHeader(stored) => Streamed(false, stored, [])
    case Body(stamp, records, complete) =>
      if !stamp.Valid() || (expected.Some? && stamp != expected.value) then Streamed(false, stamp, [])
      else Streamed(complete, stamp, records)
  }

  datatype Error = NoLibrary | CannotOpen | NoRevision | CorruptCache | ReadFailed

  datatype LoadResult = LoadResult(ok: bool, error: Option<Error>, usedCache: bool, wasStale: bool, rebuilt: bool,
                                   trackCount: nat, cacheReason: string, sourceRevision: int)

  const NOTHING_LOADED := LoadResult(false, None, false, false, false, 0, "", -1)

  /** The library database, as one read transaction sees it. */
  datatype Library<R> = Library(present: bool, opens: bool, signature: Signature,
                                localSql: Statement<R>, mpdSql: Statement<R>)
  {
    predicate Ready() {
      present && opens && signature.Valid()
    }

    predicate Breaks() {
      Faulty(localSql) || Faulty(mpdSql)
    }

    function Records(): seq<R> {
      AllRows(localSql, mpdSql)
    }
  }

  class Loader<R> {
    const library: Library<R>
    var cache: CacheFile<R>
    var index: seq<R>
    var sunk: seq<R>

    /** A complete cache stamped with the current signature. */
    predicate Hit()
      reads this`cache
    {
      cache.Body? && cache.complete && cache.stamp == library.signature
    }

    /** A cache with the current signature whose records break off after the first. */
    predicate Torn()
      reads this`cache
    {
      cache.Body? && !cache.complete && cache.stamp == library.signature && cache.records != []
    }

    /** The signature in the file's header. */
    function Stamp(): Signature
      reads this`cache
    {
      match cache
      case Missing => NO_SIGNATURE
      case BadHeader(stored) => stored
      case Body(stamp, _, _) => stamp
    }

    /** What the revision protocol gives: a hit holds the current records. */
    ghost predicate CacheSound()
      reads this`cache
    {
      Hit() ==> cache.records == library.Records()
    }

    function Rewritten(writable: bool): CacheFile<R>
      reads this`cache
    {
      if writable then Body(library.signature, library.Records(), true) else cache
    }

    /** The error of a load that read no record. */
    ghost predicate IsRefused(error: Option<Error>) {
      if !library.present then error == Some(NoLibrary)
      else if !library.opens then error == Some(CannotOpen)
      else !library.signature.Valid() && error == Some(NoRevision)
    }

    /** Why a loadable cache, or none, was not used: damage goes before age. */
    ghost predicate IsReason(reason: string, forceRefresh: bool, loadable: bool)
      reads this`cache
    {
      if forceRefresh then reason == "forced-refresh"
      else if loadable then NamesDifference(reason, Stamp(), library.signature)
      else if cache.Missing? then reason == "missing-cache"
      else reason == "invalid-cache"
    }

    /** The checks before any record is read. */
    function Opening(): LoadResult {
      if !library.present then NOTHING_LOADED.(error := Some(NoLibrary))
      else if !library.opens then NOTHING_LOADED.(error := Some(CannotOpen))
      else if !library.signature.Valid() then NOTHING_LOADED.(error := Some(NoRevision))
      else NOTHING_LOADED.(sourceRevision := library.signature.contentRevision, cacheReason := "forced-refresh")
    }

    /**
      Fills the index.  It is filled from exactly one whole source, or not
      touched; a torn or stale cache only leads to a rebuild.
    */
    method LoadIndex(forceRefresh: bool, writable: bool) returns (result: LoadResult)
      modifies this
      ensures sunk == old(sunk)
      ensures result.ok <==> library.Ready() && ((!forceRefresh && old(Hit())) || !library.Breaks())
      ensures result.ok <==> result.error == None
      ensures result.usedCache <==> library.Ready() && !forceRefresh && old(Hit())
      ensures result.rebuilt <==> result.ok && !result.usedCache
      ensures result.usedCache ==> index == old(cache.records) && cache == old(cache)
      ensures result.rebuilt ==> index == library.Records() && cache == old(Rewritten(writable))
      ensures !result.ok ==> index == old(index) && cache == old(cache)
      ensures result.ok ==> result.trackCount == |index|
      ensures result.usedCache <==> result.cacheReason == "hit"
      ensures result.wasStale <==>
        library.Ready() && !forceRefresh && old(cache.Body? && cache.complete && Stamp().Valid() && Stamp() != library.signature)
      ensures !library.Ready() ==> IsRefused(result.error)
      ensures result.error == Some(NoRevision) <==> library.present && library.opens && IsUnusable(library.signature)
      ensures library.Ready() ==>
        result.error == (if result.ok then None else Some(ReadFailed)) &&
        result.sourceRevision == library.signature.contentRevision &&
        old(IsReason(result.cacheReason, forceRefresh, cache.Body? && cache.complete && Stamp().Valid()))
      ensures old(CacheSound()) ==> CacheSound() && (result.ok ==> index == library.Records())
    {
      NotHit();
      result := Opening();
      if result.error.Some? {
        return;
      }
      if !forceRefresh {
        ReasonIsHit(Stamp(), library.signature);
        if Stamp().Valid() {
          ReasonNames(Stamp(), library.signature);
        }
        var cached := ForEachRecord(cache, None);
        result := result.(cacheReason :=
          if cached.ok then MismatchReason(cached.signature, library.signature)
          else if cache.Missing? then "missing-cache"
          else "invalid-cache");
        if cached.ok && cached.signature == library.signature {
          index := cached.sunk;
          result := result.(usedCache := true, ok := true, trackCount := |index|);
          return;
        }
        result := result.(wasStale := cached.ok);
      }
      var records, failed := ReadAll(library.localSql, library.mpdSql);
      if failed {
        result := result.(error := Some(ReadFailed));
        return;
      }
      index := records;
      if writable {
        cache := Body(library.signature, records, true);
      }
      result := result.(trackCount := |records|, ok := true, rebuilt := true);
    }

    /**
      Streams records to the sink.  It reports ok only when the sink received
      exactly one whole source; after part of a cache it stops with an error
      instead of going on with the database.
    */
    method StreamRecords(forceRefresh: bool, writable: bool) returns (result: LoadResult)
      modifies this
      ensures index == old(index)
      ensures result.ok <==>
        library.Ready() && ((!forceRefresh && old(Hit())) || (!(!forceRefresh && old(Torn())) && !library.Breaks()))
      ensures result.ok <==> result.error == None
      ensures result.usedCache <==> library.Ready() && !forceRefresh && old(Hit())
      ensures result.rebuilt <==> result.ok && !result.usedCache
      ensures result.usedCache ==> sunk == old(sunk) + old(cache.records) && cache == old(cache)
      ensures result.rebuilt ==> sunk == old(sunk) + library.Records() && cache == old(Rewritten(writable))
      ensures result.ok ==> |sunk| == |old(sunk)| + result.trackCount
      ensures result.usedCache <==> result.cacheReason == "hit"
      ensures result.wasStale <==>
        library.Ready() && !forceRefresh && old(Stamp().Valid() && Stamp() != library.signature)
      ensures !result.ok ==> cache == old(cache)
      ensures result.error == Some(CorruptCache) <==> library.Ready() && !forceRefresh && old(Torn())
      ensures result.error == Some(CorruptCache) ==> sunk == old(sunk) + old(cache.records)
      ensures result.error == Some(ReadFailed) ==> old(sunk) <= sunk <= old(sunk) + library.Records()
      ensures !library.Ready() ==> IsRefused(result.error) && sunk == old(sunk)
      ensures result.error == Some(NoRevision) <==> library.present && library.opens && IsUnusable(library.signature)
      ensures library.Ready() ==>
        (result.ok || result.error == Some(ReadFailed) || result.error == Some(CorruptCache)) &&
        result.sourceRevision == library.signature.contentRevision
      ensures library.Ready() && !result.usedCache && result.error != Some(CorruptCache) ==>
        old(IsReason(result.cacheReason, forceRefresh, Stamp().Valid() && Stamp() != library.signature))
      ensures result.error == Some(CorruptCache) ==> result.cacheReason == "forced-refresh"
      ensures old(CacheSound()) ==> CacheSound() && (result.ok ==> sunk == old(sunk) + library.Records())
    {
      NotHit();
      result := Opening();
      if result.error.Some? {
        return;
      }
      if !forceRefresh {
        var done;
        result, done := StreamCache(result);
        if done {
          return;
        }
      }
      result := StreamDatabase(result, writable);
    }

    /** The cache, as far as it goes: done with a hit, and with records that break off. */
    method StreamCache(start: LoadResult) returns (result: LoadResult, done: bool)
      requires library.Ready() && start == Opening()
      modifies this`sunk
      ensures done <==> Hit() || Torn()
      ensures Hit() ==>
        result == start.(ok := true, usedCache := true, cacheReason := "hit", trackCount := |cache.records|) &&
        sunk == old(sunk) + cache.records
      ensures Torn() ==>
        result == start.(error := Some(CorruptCache), trackCount := |cache.records|) && sunk == old(sunk) + cache.records
      ensures !done ==>
        sunk == old(sunk) &&
        result == start.(wasStale := Stamp().Valid() && Stamp() != library.signature, cacheReason := result.cacheReason) &&
        result.cacheReason != "hit" && IsReason(result.cacheReason, false, result.wasStale)
    {
      NotHit();
      ReasonIsHit(Stamp(), library.signature);
      if Stamp().Valid() {
        ReasonNames(Stamp(), library.signature);
      }
      var cached := ForEachRecord(cache, Some(library.signature));
      sunk := sunk + cached.sunk;
      result, done := start.(trackCount := |cached.sunk|), true;
      if cached.ok {
        result := result.(ok := true, usedCache := true, cacheReason := "hit");
        return;
      }
      if result.trackCount > 0 {
        result := result.(error := Some(CorruptCache));
        return;
      }
      result := result.(wasStale := cached.signature.Valid() && cached.signature != library.signature);
      result := result.(cacheReason :=
        if result.wasStale then MismatchReason(cached.signature, library.signature)
        else if cache.Missing? then "missing-cache"
        else "invalid-cache");
      done := false;
    }

    /** The rebuild: every row goes to the sink, and then into the cache. */
    method StreamDatabase(start: LoadResult, writable: bool) returns (result: LoadResult)
      requires start.error == None
      modifies this
      ensures index == old(index)
      ensures library.Breaks() ==>
        result == start.(error := Some(ReadFailed)) && cache == old(cache) &&
        old(sunk) <= sunk <= old(sunk) + library.Records()
      ensures !library.Breaks() ==>
        result == start.(ok := true, rebuilt := true, trackCount := |library.Records()|) &&
        cache == old(Rewritten(writable)) && sunk == old(sunk) + library.Records()
    {
      ghost var before := sunk;
      var cursor := new TrackSearchCursor<R>(library.localSql, library.mpdSql);
      ReadableIsPrefix(library.localSql, library.mpdSql);
      var all := Drain(cursor);
      assert all <= library.Records();
      sunk := sunk + all;
      Prefixed(before, all, library.Records());
      if cursor.error {
        return start.(error := Some(ReadFailed));
      }
      if writable {
        cache := Body(library.signature, all, true);
      }
      result := start.(ok := true, rebuilt := true, trackCount := |all|);
    }
  }

  lemma Prefixed<R>(head: seq<R>, part: seq<R>, whole: seq<R>)
    requires part <= whole
    ensures head <= head + part <= head + whole
  {
  }

  /** What a cursor can deliver is a prefix of the rows. */
  lemma ReadableIsPrefix<R>(localSql: Statement<R>, mpdSql: Statement<R>)
    ensures Readable(localSql) + (if Faulty(localSql) then [] else Readable(mpdSql)) <= AllRows(localSql, mpdSql)
  {
    assert Readable(localSql) <= RowsOf(localSql) && Readable(mpdSql) <= RowsOf(mpdSql);
  }
}
