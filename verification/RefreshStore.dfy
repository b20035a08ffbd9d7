/** The refresh worker as the program it is: database calls that update the store in place,
    and one uninterrupted refresh made of them. */
module RefreshStore {
  import opened Csv
  import opened Draws
  import opened OfficialFile
  import opened SourceDiff
  import opened Refresh

  method SplitIntoChunks<T>(items: seq<T>, size: nat) returns (r: seq<seq<T>>)
    requires size > 0
    ensures r == Chunks(items, size)
  {
    r := [];
    var index := 0;
    while index < |items|
      invariant 0 <= index
      invariant index <= |items| ==> Chunks(items, size) == r + Chunks(items[index..], size)
      invariant index > |items| ==> Chunks(items, size) == r
    {
      var rest := items[index..];
      if |rest| <= size {
        r := r + [rest];
      } else {
        assert rest[..size] == items[index..index + size] && rest[size..] == items[index + size..];
        r := r + [items[index..index + size]];
      }
      index := index + size;
    }
  }

  /** An enabled source without a lease, or with one that has run out. */
  predicate Takeable(row: SourceRow, now: nat) {
    row.enabled && (row.token == None || row.expires == None || row.expires.value <= now)
  }

  /** The lease is given back, and a run on the stored copy counts as one more failure. */
  predicate RowClosed(was: SourceRow, row: SourceRow, fromCache: bool) {
    && row.enabled == was.enabled && row.token == None && row.expires == None
    && row.failures == (if fromCache then was.failures + 1 else 0)
    && (row.status == CacheFallback <==> fromCache)
  }

  /** A published source: digest, counts and dates are the plan's, and the status tells a clean file
      from a partly quarantined one and both from the stored copy. */
  predicate RowPublished(was: SourceRow, row: SourceRow, p: Plan, file: File, clean: bool) {
    && RowClosed(was, row, file.fromCache)
    && (!file.fromCache ==> (clean <==> row.status == Complete) && (!clean <==> row.status == CompleteWithQuarantine))
    && row.digest == Some(file.lines) && row.parserVersion == 1
    && row.activeCount == p.activeCount && row.latest == p.latest
  }

  /** An unchanged source keeps what it says about its draws, and a quarantine stays on record. */
  predicate RowUnchanged(was: SourceRow, row: SourceRow, seen: SourceRow, fromCache: bool) {
    && RowClosed(was, row, fromCache)
    && (!fromCache ==> row.status == Complete || row.status == CompleteWithQuarantine)
    && (!fromCache ==> (row.status == CompleteWithQuarantine <==> seen.status == CompleteWithQuarantine))
    && SameDraws(was, row)
  }

  /** A failed source keeps what it says about its draws. */
  predicate RowFailed(was: SourceRow, row: SourceRow) {
    && row.enabled == was.enabled && row.token == None && row.expires == None
    && row.status == Failed && row.failures == was.failures + 1
    && SameDraws(was, row)
  }

  predicate SameDraws(was: SourceRow, row: SourceRow) {
    && row.digest == was.digest && row.parserVersion == was.parserVersion
    && row.activeCount == was.activeCount && row.latest == was.latest
  }

  /** How plans are made: each key at most once, and retired slots only when some are counted. */
  ghost predicate PlanShape(p: Plan) {
    DistinctKeys(p.changed) && (p.retired == 0 ==> p.retire == {})
  }

  lemma BatchWritesPlan(db: Db, id: SourceId, tok: Token, p: Plan, file: File, clean: bool, now: nat)
    ensures var after := PublishBatch(db, id, tok, p, file, clean, now);
      LiveLease(db, id, tok, now) && PlanShape(p) ==> WrittenAsPlanned(db.draws, after.draws, p, id, now)
  {
    if LiveLease(db, id, tok, now) && PlanShape(p) {
      PublishAllOrNothing(db, id, tok, p, file, clean, now);
      ApplyPlanWrites(db.draws, p, id, now);
    }
  }

  class Store {
    var sources: map<SourceId, SourceRow>
    var draws: Table

    constructor ()
      ensures View() == INITIAL.db
    {
      sources, draws := map[], map[];
    }

    function View(): Db
      reads this
    {
      Db(sources, draws)
    }

    method AcquireLease(id: SourceId, tok: Token, now: nat) returns (ok: bool)
      modifies this
      ensures View() == Acquire(old(View()), id, tok, now)
      ensures ok <==> old(id in sources && Takeable(sources[id], now))
      ensures ok ==> sources[id].token == Some(tok) && sources[id].expires == Some(now + 600_000)
      ensures !ok ==> View() == old(View())
    {
      ok := id in sources && LeaseFree(sources[id], now);
      if ok {
        sources := sources[id := sources[id].(token := Some(tok), expires := Some(now + LEASE_MS))];
      }
    }

    /** One batch: the upserts chunk by chunk, then the retirement, then the source row. */
    method PublishPlan(id: SourceId, tok: Token, p: Plan, file: File, clean: bool, now: nat) returns (ok: bool)
      modifies this
      ensures View() == PublishBatch(old(View()), id, tok, p, file, clean, now)
      ensures ok <==> old(LiveLease(View(), id, tok, now))
      ensures !ok ==> View() == old(View())
      ensures ok ==> sources.Keys == old(sources.Keys) && RowPublished(old(sources[id]), sources[id], p, file, clean)
      ensures ok && PlanShape(p) ==> WrittenAsPlanned(old(draws), draws, p, id, now)
    {
      var chunks := SplitIntoChunks(p.changed, UPSERT_CHUNK_SIZE);
      var i := 0;
      ghost var was := View();
      while i < |chunks|
        invariant 0 <= i <= |chunks|
        invariant WriteChunks(was, id, tok, chunks, now) == WriteChunks(View(), id, tok, chunks[i..], now)
        invariant sources == was.sources && (!LiveLease(was, id, tok, now) ==> draws == was.draws)
      {
        assert chunks[i..][0] == chunks[i] && chunks[i..][1..] == chunks[i + 1..];
        if LeaseHeld(View(), id, tok, now) {
          draws := UpsertAll(draws, chunks[i], id, now);
        }
        i := i + 1;
      }
      assert chunks[i..] == [];
      if p.retired > 0 && LeaseHeld(View(), id, tok, now) {
        draws := Retire(draws, id, p.retire);
      }
      ok := LeaseHeld(View(), id, tok, now);
      if ok {
        sources := sources[id := PublishedRow(sources[id], p, file, clean)];
      }
      BatchWritesPlan(was, id, tok, p, file, clean, now);
    }

    method MarkSourceUnchanged(id: SourceId, tok: Token, seen: SourceRow, fromCache: bool, now: nat) returns (ok: bool)
      modifies this`sources
      ensures View() == MarkUnchanged(old(View()), id, tok, seen, fromCache, now)
      ensures ok <==> old(LiveLease(View(), id, tok, now))
      ensures ok ==> sources.Keys == old(sources.Keys) && RowUnchanged(old(sources[id]), sources[id], seen, fromCache)
    {
      ok := LeaseHeld(View(), id, tok, now);
      if ok {
        var status := if fromCache then CacheFallback
                      else if seen.status == CompleteWithQuarantine then CompleteWithQuarantine else Complete;
        var failures := if fromCache then sources[id].failures + 1 else 0;
        sources := sources[id := sources[id].(token := None, expires := None, status := status, failures := failures)];
      }
    }

    method RecordFailure(id: SourceId, tok: Token)
      modifies this`sources
      ensures View() == FinishFailure(old(View()), id, tok)
      ensures old(id in sources && sources[id].token == Some(tok)) ==>
        sources.Keys == old(sources.Keys) && RowFailed(old(sources[id]), sources[id])
    {
      if id in sources && sources[id].token == Some(tok) {
        sources := sources[id := sources[id].(token := None, expires := None, status := Failed,
                                              failures := sources[id].failures + 1)];
      }
    }
  }

  datatype Outcome = Busy | Published(scan: Scan) | Skipped | Failure

  /** The source shows the published file: its content, and first-seen times that older rows keep. */
  ghost predicate ShowsFile(before: Db, after: Db, src: Source, file: File, scan: Scan, now: nat) {
    && ActiveContent(RowsOf(after.draws, src.id)) == Replacement(RowsOf(before.draws, src.id), scan)
    && (forall k :: k in after.draws ==>
          after.draws[k].firstSeen == if k in before.draws then before.draws[k].firstSeen else now)
    && src.id in before.sources && src.id in after.sources
    && RowClosed(before.sources[src.id], after.sources[src.id], file.fromCache)
    && after.sources[src.id].activeCount == |ActiveKeys(RowsOf(after.draws, src.id))|
    && after.sources[src.id].latest == LatestDay(ActiveKeys(RowsOf(after.draws, src.id)))
    && after.sources[src.id].digest == Some(file.lines)
  }

  ghost predicate FailedOnly(before: Db, after: Db, id: SourceId) {
    && after.draws == before.draws && id in before.sources && id in after.sources
    && RowFailed(before.sources[id], after.sources[id])
  }

  /** A file that parses and that the completeness guard lets through. */
  ghost predicate Acceptable(db: Db, src: Source, read: Reader, file: File, today: nat) {
    var parsed := ParseFile(file.lines, src, read, today);
    parsed.Some? && !Refused(RowsOf(db.draws, src.id), parsed.value.draws)
  }

  /** A file is published, and shown from then on, exactly when it is acceptable. */
  ghost predicate Ingested(before: Db, after: Db, src: Source, read: Reader, file: File, today: nat, done: nat,
                           r: Outcome) {
    if Acceptable(before, src, read, file, today)
    then r == Published(ScanLines(file.lines, src, read, today)) && ShowsFile(before, after, src, file, r.scan, done)
    else r == Failure && FailedOnly(before, after, src.id)
  }

  /** The stored revision is this file, read by this parser. */
  predicate IsStored(row: SourceRow, file: File) {
    row.digest == Some(file.lines) && row.parserVersion == 1
  }

  ghost predicate SkippedOnly(before: Db, after: Db, id: SourceId, fromCache: bool) {
    && after.draws == before.draws && id in before.sources && id in after.sources
    && RowUnchanged(before.sources[id], after.sources[id], before.sources[id], fromCache)
  }

  /** The stored revision is skipped; any other file is ingested. */
  ghost predicate Refreshed(before: Db, after: Db, src: Source, read: Reader, file: File, today: nat, done: nat,
                            r: Outcome) {
    && src.id in before.sources
    && if IsStored(before.sources[src.id], file) then r == Skipped && SkippedOnly(before, after, src.id, file.fromCache)
       else Ingested(before, after, src, read, file, today, done, r)
  }

  /** Parses, diffs and publishes a file under the lease. */
  method IngestChanged(store: Store, src: Source, read: Reader, tok: Token, file: File, today: nat, done: nat)
    returns (r: Outcome)
    requires OwnsItsKeys(store.draws, src) && Stamped(store.draws) && LiveLease(store.View(), src.id, tok, done)
    modifies store
    ensures Ingested(old(store.View()), store.View(), src, read, file, today, done, r)
  {
    var parsed := ParseOfficialCsv(file.lines, src, read, today);
    if parsed.None? {
      store.RecordFailure(src.id, tok);
      return Failure;
    }
    var scan := parsed.value;
    ScanShape(file.lines, src, read, today);
    var existing := RowsOf(store.draws, src.id);
    var plan := ComputePlan(existing, scan);
    if plan.None? {
      store.RecordFailure(src.id, tok);
      return Failure;
    }
    ghost var before := store.View();
    var ok := store.PublishPlan(src.id, tok, plan.value, file, scan.issues == [], done);
    PublishedSource(before, src, read, tok, file, today, done);
    r := Published(scan);
  }

  /** A whole refresh with nobody interfering. It publishes exactly when the file is not the
      stored revision, parses, and passes the guard, and then the source shows the file; in
      every other case no draw changes. */
  method RefreshSource(store: Store, src: Source, read: Reader, tok: Token, start: nat, file: File, today: nat,
                       done: nat)
    returns (r: Outcome)
    requires OwnsItsKeys(store.draws, src) && Stamped(store.draws)
    requires start <= done < start + LEASE_MS
    requires file.fromCache ==> src.id in store.sources && store.sources[src.id].digest == Some(file.lines)
    modifies store
    ensures r.Busy? <==> !old(src.id in store.sources && Takeable(store.sources[src.id], start))
    ensures r.Busy? ==> store.View() == old(store.View())
    ensures !r.Busy? ==> Refreshed(old(store.View()), store.View(), src, read, file, today, done, r)
  {
    ghost var before := store.View();
    var ok := store.AcquireLease(src.id, tok, start);
    if !ok {
      return Busy;
    }
    ghost var acquired := store.View();
    var state := store.sources[src.id];
    if state.digest == Some(file.lines) && state.parserVersion == PARSER_VERSION {
      ok := store.MarkSourceUnchanged(src.id, tok, state, file.fromCache, done);
      return Skipped;
    }
    r := IngestChanged(store, src, read, tok, file, today, done);
    IngestedSinceAcquire(before, acquired, store.View(), src, read, tok, start, file, today, done, r);
  }

  lemma IngestedSinceAcquire(before: Db, acquired: Db, after: Db, src: Source, read: Reader, tok: Token, start: nat,
                             file: File, today: nat, done: nat, r: Outcome)
    requires src.id in before.sources && acquired == Acquire(before, src.id, tok, start)
    requires Ingested(acquired, after, src, read, file, today, done, r)
    ensures Ingested(before, after, src, read, file, today, done, r)
  {
  }

  lemma PublishedSource(db: Db, src: Source, read: Reader, tok: Token, file: File, today: nat, now: nat)
    requires OwnsItsKeys(db.draws, src) && Stamped(db.draws) && LiveLease(db, src.id, tok, now)
    ensures var scan := ScanLines(file.lines, src, read, today);
      var after := PublishBatch(db, src.id, tok, PlanFor(RowsOf(db.draws, src.id), scan), file, scan.issues == [], now);
      ShowsFile(db, after, src, file, scan, now)
  {
    var scan := ScanLines(file.lines, src, read, today);
    var rows := RowsOf(db.draws, src.id);
    PlanRetires(rows, scan);
    PublishAllOrNothing(db, src.id, tok, PlanFor(rows, scan), file, scan.issues == [], now);
    ScanIsPublishable(db.draws, file.lines, src, read, today);
    PublishIsReplacement(db.draws, scan, src, now);
    PlanCountsActiveSet(db.draws, scan, src, now);
    RowsAfter(db.draws, scan, src, now);
  }
}
