/** The source refresh protocol: each database call of a refresh worker is one atomic step
    on the shared store, and any number of workers interleave. Clock readings are arbitrary
    at every step; only the calendar day is assumed not to go back. */
module Refresh {
  import opened Csv
  import opened Draws
  import opened OfficialFile
  import opened SourceDiff

  /** A lease token is the run's fresh UUID. */
  type Token = nat

  /** SHA-256 is taken to be injective, so a digest is represented by the file itself. */
  type Digest = seq<string>

  const PARSER_VERSION := 1
  const LEASE_MS := 600_000
  const UPSERT_CHUNK_SIZE := 500

  datatype Status = Never | Complete | CompleteWithQuarantine | CacheFallback | Failed

  datatype SourceRow = SourceRow(
    enabled: bool, token: Option<Token>, expires: Option<nat>, digest: Option<Digest>,
    parserVersion: nat, status: Status, activeCount: nat, latest: nat, failures: nat)

  const NEW_ROW := SourceRow(true, None, None, None, 0, Never, 0, 0, 0)

  datatype Db = Db(sources: map<SourceId, SourceRow>, draws: Table)

  // ---- the database calls ----

  predicate LeaseFree(row: SourceRow, now: nat) {
    row.enabled && (row.token.None? || row.expires.None? || row.expires.value <= now)
  }

  function Acquire(db: Db, id: SourceId, tok: Token, now: nat): Db {
    if id in db.sources && LeaseFree(db.sources[id], now) then
      db.(sources := db.sources[id := db.sources[id].(token := Some(tok), expires := Some(now + LEASE_MS))])
    else db
  }

  predicate HasToken(db: Db, id: SourceId, tok: Token) {
    id in db.sources && db.sources[id].token == Some(tok)
  }

  /** The guard repeated in every publishing statement. */
  predicate LeaseHeld(db: Db, id: SourceId, tok: Token, now: nat) {
    HasToken(db, id, tok) && db.sources[id].expires.Some? && db.sources[id].expires.value > now
  }

  function WriteChunk(db: Db, id: SourceId, tok: Token, chunk: seq<ParsedDraw>, now: nat): Db {
    if LeaseHeld(db, id, tok, now) then db.(draws := UpsertAll(db.draws, chunk, id, now)) else db
  }

  function WriteChunks(db: Db, id: SourceId, tok: Token, chunks: seq<seq<ParsedDraw>>, now: nat): Db
    decreases |chunks|
  {
    if chunks == [] then db
    else WriteChunks(WriteChunk(db, id, tok, chunks[0], now), id, tok, chunks[1..], now)
  }

  function RetireMissing(db: Db, id: SourceId, tok: Token, p: Plan, now: nat): Db {
    if p.retired > 0 && LeaseHeld(db, id, tok, now) then db.(draws := Retire(db.draws, id, p.retire)) else db
  }

  /** What a worker acquired: the file's lines and whether they came from the stored copy. */
  datatype File = File(lines: seq<string>, fromCache: bool)

  function PublishedRow(row: SourceRow, p: Plan, file: File, clean: bool): SourceRow {
    SourceRow(row.enabled, None, None, Some(file.lines), PARSER_VERSION,
              if file.fromCache then CacheFallback else if clean then Complete else CompleteWithQuarantine,
              p.activeCount, p.latest, if file.fromCache then row.failures + 1 else 0)
  }

  function FinishSource(db: Db, id: SourceId, tok: Token, p: Plan, file: File, clean: bool, now: nat): Db {
    if LeaseHeld(db, id, tok, now) then
      db.(sources := db.sources[id := PublishedRow(db.sources[id], p, file, clean)])
    else db
  }

  function Chunks<T>(items: seq<T>, size: nat): (r: seq<seq<T>>)
    requires size > 0
  {
    if items == [] then []
    else if |items| <= size then [items]
    else [items[..size]] + Chunks(items[size..], size)
  }

  /** The publishing batch, statement by statement. */
  function PublishBatch(db: Db, id: SourceId, tok: Token, p: Plan, file: File, clean: bool, now: nat): Db {
    var a := WriteChunks(db, id, tok, Chunks(p.changed, UPSERT_CHUNK_SIZE), now);
    var b := RetireMissing(a, id, tok, p, now);
    FinishSource(b, id, tok, p, file, clean, now)
  }

  function MarkUnchanged(db: Db, id: SourceId, tok: Token, seen: SourceRow, fromCache: bool, now: nat): Db {
    if LeaseHeld(db, id, tok, now) then
      var row := db.sources[id];
      db.(sources := db.sources[id := row.(
            token := None, expires := None,
            status := if fromCache then CacheFallback
                      else if seen.status == CompleteWithQuarantine then CompleteWithQuarantine else Complete,
            failures := if fromCache then row.failures + 1 else 0)])
    else db
  }

  /** Failure bookkeeping checks the token but not the expiry. */
  function FinishFailure(db: Db, id: SourceId, tok: Token): Db {
    if HasToken(db, id, tok) then
      var row := db.sources[id];
      db.(sources := db.sources[id := row.(token := None, expires := None, status := Failed,
                                           failures := row.failures + 1)])
    else db
  }

  lemma {:induction false} ChunkedWrite(db: Db, id: SourceId, tok: Token, items: seq<ParsedDraw>, size: nat, now: nat)
    requires size > 0
    ensures WriteChunks(db, id, tok, Chunks(items, size), now) == WriteChunk(db, id, tok, items, now)
    decreases |items|
  {
    var chunks := Chunks(items, size);
    if |items| > size {
      var next := WriteChunk(db, id, tok, items[..size], now);
      assert chunks[1..] == Chunks(items[size..], size);
      ChunkedWrite(next, id, tok, items[size..], size, now);
      UpsertInTwoParts(db.draws, items[..size], items[size..], id, now);
      assert items[..size] + items[size..] == items;
    } else if items != [] {
      assert chunks[1..] == [];
    }
  }

  /** The batch is all or nothing: with the lease it applies the whole plan, without it
      nothing at all, although every statement checks for itself. */
  lemma PublishAllOrNothing(db: Db, id: SourceId, tok: Token, p: Plan, file: File, clean: bool, now: nat)
    requires p.retired == 0 ==> p.retire == {}
    ensures PublishBatch(db, id, tok, p, file, clean, now)
      == if LeaseHeld(db, id, tok, now)
         then Db(db.sources[id := PublishedRow(db.sources[id], p, file, clean)], ApplyPlan(db.draws, p, id, now))
         else db
  {
    ChunkedWrite(db, id, tok, p.changed, UPSERT_CHUNK_SIZE, now);
    var t := UpsertAll(db.draws, p.changed, id, now);
    assert p.retire == {} ==> Retire(t, id, p.retire) == t;
  }

  // ---- workers and runs ----

  datatype Worker =
    | Leased(id: SourceId)
    | Fetched(id: SourceId, row: SourceRow, file: File)
    | Planned(id: SourceId, file: File, day: nat, scan: Scan, rows: Table)
    | Stopped

  /** History: the last published revision of a source. */
  datatype Revision = Revision(lines: seq<string>, day: nat, scan: Scan)

  datatype State = State(db: Db, workers: map<Token, Worker>, today: nat, published: map<SourceId, Revision>)

  datatype Config = Config(sources: map<SourceId, Source>, read: SourceId -> Reader)

  /** Sources are registered under their own ids, and no two share a game and session. */
  ghost predicate WellConfigured(cfg: Config) {
    && (forall id :: id in cfg.sources ==> cfg.sources[id].id == id)
    && (forall a, b :: a in cfg.sources && b in cfg.sources && a != b ==>
          cfg.sources[a].game != cfg.sources[b].game || cfg.sources[a].session != cfg.sources[b].session)
  }

  datatype Action =
    | Register(id: SourceId, enabled: bool)
    | NextDay
    | Start(tok: Token, id: SourceId, now: nat)
    | Fetch(tok: Token, file: File)
    | MakePlan(tok: Token)
    | Publish(tok: Token, now: nat)
    | Shortcut(tok: Token, now: nat)
    | Fail(tok: Token)

  /** The digest shortcut is taken on the source row the worker read. */
  predicate TakesShortcut(w: Worker)
    requires w.Fetched?
  {
    w.row.digest == Some(w.file.lines) && w.row.parserVersion == PARSER_VERSION
  }

  function Stop(s: State, tok: Token, db: Db): State {
    s.(db := db, workers := s.workers[tok := Stopped])
  }

  /** The plan a worker computed from the rows it read. */
  ghost function WorkerPlan(w: Worker): Plan
    requires w.Planned?
  {
    PlanFor(w.rows, w.scan)
  }

  ghost function Planning(cfg: Config, s: State, tok: Token, w: Worker): State
    requires w.Fetched? && w.id in cfg.sources
  {
    var parsed := ParseFile(w.file.lines, cfg.sources[w.id], cfg.read(w.id), s.today);
    var rows := RowsOf(s.db.draws, w.id);
    if parsed.Some? && GuardPasses(rows, parsed.value.draws)
    then s.(workers := s.workers[tok := Planned(w.id, w.file, s.today, parsed.value, rows)])
    else s
  }

  ghost function Publishing(s: State, tok: Token, w: Worker, now: nat): State
    requires w.Planned?
  {
    var t := Stop(s, tok, PublishBatch(s.db, w.id, tok, WorkerPlan(w), w.file, w.scan.issues == [], now));
    if LeaseHeld(s.db, w.id, tok, now)
    then t.(published := s.published[w.id := Revision(w.file.lines, w.day, w.scan)])
    else t
  }

  /** One step; an action that is not possible leaves the state as it is. */
  ghost function Next(cfg: Config, s: State, a: Action): State {
    match a
    case Register(id, enabled) =>
      if id !in cfg.sources then s
      else if id in s.db.sources
      then s.(db := s.db.(sources := s.db.sources[id := s.db.sources[id].(enabled := enabled)]))
      else s.(db := s.db.(sources := s.db.sources[id := NEW_ROW]))
    case NextDay => s.(today := s.today + 1)
    case Start(tok, id, now) =>
      if tok in s.workers || id !in s.db.sources then s
      else if LeaseFree(s.db.sources[id], now)
      then s.(db := Acquire(s.db, id, tok, now), workers := s.workers[tok := Leased(id)])
      else s.(workers := s.workers[tok := Stopped])
    case Fetch(tok, file) =>
      if tok in s.workers && s.workers[tok].Leased? && s.workers[tok].id in s.db.sources
         && (file.fromCache ==> s.db.sources[s.workers[tok].id].digest == Some(file.lines))
      then s.(workers := s.workers[tok := Fetched(s.workers[tok].id, s.db.sources[s.workers[tok].id], file)])
      else s
    case MakePlan(tok) =>
      if tok in s.workers && s.workers[tok].Fetched? && s.workers[tok].id in cfg.sources
         && !TakesShortcut(s.workers[tok])
      then Planning(cfg, s, tok, s.workers[tok]) else s
    case Publish(tok, now) =>
      if tok in s.workers && s.workers[tok].Planned? then Publishing(s, tok, s.workers[tok], now) else s
    case Shortcut(tok, now) =>
      if tok in s.workers && s.workers[tok].Fetched? && TakesShortcut(s.workers[tok])
      then var w := s.workers[tok];
           Stop(s, tok, MarkUnchanged(s.db, w.id, tok, w.row, w.file.fromCache, now))
      else s
    case Fail(tok) =>
      if tok in s.workers && !s.workers[tok].Stopped?
      then Stop(s, tok, FinishFailure(s.db, s.workers[tok].id, tok)) else s
  }

  const INITIAL := State(Db(map[], map[]), map[], 0, map[])

  ghost function Run(cfg: Config, s: State, actions: seq<Action>): State {
    if actions == [] then s
    else Next(cfg, Run(cfg, s, actions[..|actions| - 1]), actions[|actions| - 1])
  }

  // ---- tokens and leases ----

  /** Every stored token was issued. */
  ghost predicate TokensIssued(s: State) {
    forall id :: id in s.db.sources && s.db.sources[id].token.Some? ==> s.db.sources[id].token.value in s.workers
  }

  lemma PublishKeepsTokens(cfg: Config, s: State, tok: Token, now: nat)
    requires TokensIssued(s)
    ensures TokensIssued(Next(cfg, s, Publish(tok, now)))
    ensures s.workers.Keys <= Next(cfg, s, Publish(tok, now)).workers.Keys
  {
    if tok in s.workers && s.workers[tok].Planned? {
      var w := s.workers[tok];
      PlanRetires(w.rows, w.scan);
      PublishAllOrNothing(s.db, w.id, tok, WorkerPlan(w), w.file, w.scan.issues == [], now);
    }
  }

  lemma QuietStepKeepsTokens(cfg: Config, s: State, a: Action)
    requires TokensIssued(s) && !a.Publish?
    ensures TokensIssued(Next(cfg, s, a))
    ensures s.workers.Keys <= Next(cfg, s, a).workers.Keys
  {
  }

  lemma TokensStayIssued(cfg: Config, s: State, a: Action)
    requires TokensIssued(s)
    ensures TokensIssued(Next(cfg, s, a))
    ensures s.workers.Keys <= Next(cfg, s, a).workers.Keys
  {
    if a.Publish? {
      PublishKeepsTokens(cfg, s, a.tok, a.now);
    } else {
      QuietStepKeepsTokens(cfg, s, a);
    }
  }

  lemma PlanRetires(rows: Table, scan: Scan)
    ensures PlanFor(rows, scan).retired == 0 ==> PlanFor(rows, scan).retire == {}
  {
    if |Missing(rows, scan.draws)| == 0 {
      assert Missing(rows, scan.draws) == {};
    }
  }

  /** Once an issued token is not the lease of a source, it never is again. */
  lemma LostTokenStaysLost(cfg: Config, s: State, a: Action, id: SourceId, tok: Token)
    requires tok in s.workers && !HasToken(s.db, id, tok)
    ensures !HasToken(Next(cfg, s, a).db, id, tok)
  {
    if a.Publish? && a.tok in s.workers && s.workers[a.tok].Planned? {
      var w := s.workers[a.tok];
      PlanRetires(w.rows, w.scan);
      PublishAllOrNothing(s.db, w.id, a.tok, WorkerPlan(w), w.file, w.scan.issues == [], a.now);
    }
  }

  /** A successful acquisition of this source's lease. */
  predicate Acquires(s: State, a: Action, id: SourceId) {
    a.Start? && a.id == id && a.tok !in s.workers && id in s.db.sources && LeaseFree(s.db.sources[id], a.now)
  }

  // ---- invariants ----

  ghost predicate Stamped(t: Table) {
    forall k :: k in t ==> t[k].fingerprint == Fingerprint(k, t[k].content)
  }

  ghost predicate TableSound(cfg: Config, s: State) {
    && WellConfigured(cfg)
    && s.db.sources.Keys <= cfg.sources.Keys
    && (forall k :: k in s.db.draws ==> s.db.draws[k].source in s.db.sources)
    && (forall k :: k in s.db.draws ==> k == KeyOf(cfg.sources[s.db.draws[k].source], k.day))
    && Stamped(s.db.draws)
  }

  /** A worker's plan is for a configured source, from a file that parsed on that day; and as
      long as the worker holds the lease, what it read is what the store says. */
  ghost predicate PlanSound(cfg: Config, s: State, tok: Token, w: Worker)
  {
    && (!w.Stopped? ==> w.id in cfg.sources && w.id in s.db.sources)
    && (w.Fetched? && HasToken(s.db, w.id, tok) ==> w.row.digest == s.db.sources[w.id].digest)
    && (w.Planned? ==>
      && w.day <= s.today
      && ParseFile(w.file.lines, cfg.sources[w.id], cfg.read(w.id), w.day) == Some(w.scan)
      && GuardPasses(w.rows, w.scan.draws)
      && (HasToken(s.db, w.id, tok) ==>
            && w.rows == RowsOf(s.db.draws, w.id)
            && (w.id in s.published ==> s.published[w.id].day <= w.day)))
  }

  ghost predicate PlansSound(cfg: Config, s: State) {
    forall tok :: tok in s.workers ==> PlanSound(cfg, s, tok, s.workers[tok])
  }

  /** Whatever a file parses to can be published into a sound table. */
  lemma ScanIsPublishable(t: Table, lines: seq<string>, src: Source, read: Reader, day: nat)
    requires OwnsItsKeys(t, src) && Stamped(t)
    ensures Publishable(t, ScanLines(lines, src, read, day), src)
  {
    var scan := ScanLines(lines, src, read, day);
    ScanShape(lines, src, read, day);
    ByKeyMembers(scan.draws);
    forall k | k in t && k in ByKey(scan.draws) && t[k].fingerprint == ByKey(scan.draws)[k].fingerprint
      ensures t[k].content == ByKey(scan.draws)[k].content
    {
      DrawsAreStamped(lines, src, read, day, ByKey(scan.draws)[k]);
      FingerprintIdentifiesContent(k, t[k].content, ByKey(scan.draws)[k].content);
    }
  }

  lemma TableIsPublishable(cfg: Config, s: State, lines: seq<string>, id: SourceId, day: nat)
    requires TableSound(cfg, s) && id in cfg.sources
    ensures Publishable(s.db.draws, ScanLines(lines, cfg.sources[id], cfg.read(id), day), cfg.sources[id])
  {
    ScanIsPublishable(s.db.draws, lines, cfg.sources[id], cfg.read(id), day);
  }

  lemma DrawsAreStamped(lines: seq<string>, src: Source, read: Reader, today: nat, d: ParsedDraw)
    requires d in ScanLines(lines, src, read, today).draws
    ensures d.fingerprint == Fingerprint(d.key, d.content)
  {
    var i :| 0 <= i < |ScanLines(lines, src, read, today).draws| && ScanLines(lines, src, read, today).draws[i] == d;
    DrawIsItsLine(lines, src, read, today, i);
  }

  /** The store before and after a committed publish by `w`. */
  ghost predicate Committed(cfg: Config, s: State, t: State, w: Worker, now: nat)
    requires w.Planned?
  {
    && w.id in cfg.sources && cfg.sources[w.id].id == w.id && w.id in s.db.sources
    && t.db.draws == NewTable(s.db.draws, w.scan, w.id, now)
    && t.db.sources == s.db.sources[w.id := PublishedRow(s.db.sources[w.id], PlanFor(RowsOf(s.db.draws, w.id), w.scan),
                                                         w.file, w.scan.issues == [])]
    && t.published == s.published[w.id := Revision(w.file.lines, w.day, w.scan)]
    && t.today == s.today
    && Publishable(s.db.draws, w.scan, cfg.sources[w.id])
    && GuardPasses(RowsOf(s.db.draws, w.id), w.scan.draws)
    && (forall id :: id != w.id ==> RowsOf(t.db.draws, id) == RowsOf(s.db.draws, id))
  }

  lemma PublishStep(cfg: Config, s: State, tok: Token, now: nat)
    requires TableSound(cfg, s) && tok in s.workers && s.workers[tok].Planned?
    requires PlanSound(cfg, s, tok, s.workers[tok])
    ensures var w, t := s.workers[tok], Next(cfg, s, Publish(tok, now));
      if LeaseHeld(s.db, w.id, tok, now) then Committed(cfg, s, t, w, now)
      else t.db == s.db && t.published == s.published && t.today == s.today
  {
    var w := s.workers[tok];
    PlanRetires(w.rows, w.scan);
    PublishAllOrNothing(s.db, w.id, tok, WorkerPlan(w), w.file, w.scan.issues == [], now);
    if LeaseHeld(s.db, w.id, tok, now) {
      TableIsPublishable(cfg, s, w.file.lines, w.id, w.day);
      PublishIsReplacement(s.db.draws, w.scan, cfg.sources[w.id], now);
    }
  }

  /** What every step other than a publish leaves alone. */
  ghost predicate QuietFor(s: State, t: State, id: SourceId) {
    && t.db.draws == s.db.draws && t.published == s.published && s.today <= t.today
    && (id in s.db.sources ==>
          && id in t.db.sources
          && t.db.sources[id].digest == s.db.sources[id].digest
          && t.db.sources[id].activeCount == s.db.sources[id].activeCount
          && t.db.sources[id].latest == s.db.sources[id].latest)
    && (id !in s.db.sources && id in t.db.sources ==> t.db.sources[id] == NEW_ROW)
  }

  lemma OnlyPublishWrites(cfg: Config, s: State, a: Action, id: SourceId)
    requires !a.Publish?
    ensures QuietFor(s, Next(cfg, s, a), id)
  {
  }

  /** While a source keeps a token through a step, nobody acquires its lease, and neither its
      draws nor its published revision change. */
  lemma KeptTokenMeansQuiet(cfg: Config, s: State, a: Action, id: SourceId, tok: Token)
    requires tok in s.workers && TableSound(cfg, s) && PlansSound(cfg, s)
    requires HasToken(s.db, id, tok) && HasToken(Next(cfg, s, a).db, id, tok)
    ensures !Acquires(s, a, id)
    ensures RowsOf(Next(cfg, s, a).db.draws, id) == RowsOf(s.db.draws, id)
    ensures id in Next(cfg, s, a).published ==> id in s.published && Next(cfg, s, a).published[id] == s.published[id]
    ensures Next(cfg, s, a).db.sources[id].digest == s.db.sources[id].digest
  {
    if !a.Publish? {
      OnlyPublishWrites(cfg, s, a, id);
    } else if a.tok in s.workers && s.workers[a.tok].Planned? {
      PublishStep(cfg, s, a.tok, a.now);
    }
  }

  lemma QuietStepKeepsTable(cfg: Config, s: State, a: Action)
    requires TableSound(cfg, s) && !a.Publish?
    ensures TableSound(cfg, Next(cfg, s, a))
  {
    OnlyPublishWrites(cfg, s, a, 0);
  }

  lemma PublishStepKeepsTable(cfg: Config, s: State, tok: Token, now: nat)
    requires TableSound(cfg, s) && tok in s.workers && s.workers[tok].Planned?
    requires PlanSound(cfg, s, tok, s.workers[tok])
    ensures TableSound(cfg, Next(cfg, s, Publish(tok, now)))
  {
    PublishStep(cfg, s, tok, now);
    var w := s.workers[tok];
    if LeaseHeld(s.db, w.id, tok, now) {
      PublishKeepsTable(cfg, s, w, now);
    }
  }

  lemma TableStaysSound(cfg: Config, s: State, a: Action)
    requires TableSound(cfg, s) && PlansSound(cfg, s)
    ensures TableSound(cfg, Next(cfg, s, a))
  {
    if !a.Publish? {
      QuietStepKeepsTable(cfg, s, a);
    } else if a.tok in s.workers && s.workers[a.tok].Planned? {
      PublishStepKeepsTable(cfg, s, a.tok, a.now);
    }
  }

  lemma PublishKeepsTable(cfg: Config, s: State, w: Worker, now: nat)
    requires TableSound(cfg, s) && w.Planned? && w.id in cfg.sources && w.id in s.db.sources
    requires ParseFile(w.file.lines, cfg.sources[w.id], cfg.read(w.id), w.day) == Some(w.scan)
    ensures var u := NewTable(s.db.draws, w.scan, w.id, now);
      && (forall k :: k in u ==> u[k].source in s.db.sources && k == KeyOf(cfg.sources[u[k].source], k.day))
      && Stamped(u)
  {
    var src, t := cfg.sources[w.id], s.db.draws;
    var u := NewTable(t, w.scan, w.id, now);
    TableIsPublishable(cfg, s, w.file.lines, w.id, w.day);
    RowsAfter(t, w.scan, src, now);
    ByKeyMembers(w.scan.draws);
    forall k | k in u
      ensures u[k].source in s.db.sources && k == KeyOf(cfg.sources[u[k].source], k.day)
      ensures u[k].fingerprint == Fingerprint(k, u[k].content)
    {
      if k in ByKey(w.scan.draws) {
        ParsedRowAfter(t, w.scan, src, now, k);
        DrawsAreStamped(w.file.lines, src, cfg.read(w.id), w.day, ByKey(w.scan.draws)[k]);
      } else if t[k].source == w.id {
        UnparsedRowAfter(t, w.scan, src, now, k);
      }
    }
  }

  lemma PlanStaysSound(cfg: Config, s: State, a: Action, tok: Token)
    requires TableSound(cfg, s) && PlansSound(cfg, s) && HistorySound(cfg, s)
    requires tok in Next(cfg, s, a).workers
    ensures PlanSound(cfg, Next(cfg, s, a), tok, Next(cfg, s, a).workers[tok])
  {
    var t := Next(cfg, s, a);
    var w := t.workers[tok];
    if tok in s.workers && s.workers[tok] == w {
      OldPlanStaysSound(cfg, s, a, tok);
    } else if !w.Stopped? {
      NewWorkerIsSound(cfg, s, a, tok);
    }
  }

  lemma NewWorkerIsSound(cfg: Config, s: State, a: Action, tok: Token)
    requires TableSound(cfg, s) && PlansSound(cfg, s) && HistorySound(cfg, s)
    requires tok in Next(cfg, s, a).workers && !Next(cfg, s, a).workers[tok].Stopped?
    requires !(tok in s.workers && s.workers[tok] == Next(cfg, s, a).workers[tok])
    ensures PlanSound(cfg, Next(cfg, s, a), tok, Next(cfg, s, a).workers[tok])
  {
    if tok in s.workers {
      NextWorkerIsSound(cfg, s, a, tok);
    } else {
      StartedWorkerIsSound(cfg, s, a, tok);
    }
  }

  lemma StartedWorkerIsSound(cfg: Config, s: State, a: Action, tok: Token)
    requires TableSound(cfg, s) && tok !in s.workers
    requires tok in Next(cfg, s, a).workers && !Next(cfg, s, a).workers[tok].Stopped?
    ensures PlanSound(cfg, Next(cfg, s, a), tok, Next(cfg, s, a).workers[tok])
  {
  }

  lemma NextWorkerIsSound(cfg: Config, s: State, a: Action, tok: Token)
    requires TableSound(cfg, s) && PlansSound(cfg, s) && HistorySound(cfg, s)
    requires tok in s.workers && tok in Next(cfg, s, a).workers && !Next(cfg, s, a).workers[tok].Stopped?
    requires s.workers[tok] != Next(cfg, s, a).workers[tok]
    ensures PlanSound(cfg, Next(cfg, s, a), tok, Next(cfg, s, a).workers[tok])
  {
    if a.MakePlan? {
      MadePlanIsSound(cfg, s, a, tok);
    } else {
      FetchedWorkerIsSound(cfg, s, a, tok);
    }
  }

  lemma MadePlanIsSound(cfg: Config, s: State, a: Action, tok: Token)
    requires TableSound(cfg, s) && HistorySound(cfg, s) && a.MakePlan?
    requires tok in s.workers && PlanSound(cfg, s, tok, s.workers[tok])
    requires tok in Next(cfg, s, a).workers && s.workers[tok] != Next(cfg, s, a).workers[tok]
    ensures PlanSound(cfg, Next(cfg, s, a), tok, Next(cfg, s, a).workers[tok])
  {
    NewPlanIsSound(cfg, s, tok, s.workers[tok]);
  }

  lemma FetchedWorkerIsSound(cfg: Config, s: State, a: Action, tok: Token)
    requires tok in s.workers && PlanSound(cfg, s, tok, s.workers[tok]) && !a.MakePlan?
    requires tok in Next(cfg, s, a).workers && !Next(cfg, s, a).workers[tok].Stopped?
    requires s.workers[tok] != Next(cfg, s, a).workers[tok]
    ensures PlanSound(cfg, Next(cfg, s, a), tok, Next(cfg, s, a).workers[tok])
  {
  }

  lemma NewPlanIsSound(cfg: Config, s: State, tok: Token, w: Worker)
    requires TableSound(cfg, s) && HistorySound(cfg, s)
    requires w.Fetched? && w.id in cfg.sources && w.id in s.db.sources && tok in s.workers
    requires Planning(cfg, s, tok, w).workers[tok].Planned? && !s.workers[tok].Planned?
    ensures PlanSound(cfg, Planning(cfg, s, tok, w), tok, Planning(cfg, s, tok, w).workers[tok])
  {
    assert RevisionSound(cfg, s, w.id);
  }

  lemma OldPlanStaysSound(cfg: Config, s: State, a: Action, tok: Token)
    requires TableSound(cfg, s) && PlansSound(cfg, s)
    requires tok in s.workers && tok in Next(cfg, s, a).workers && Next(cfg, s, a).workers[tok] == s.workers[tok]
    ensures PlanSound(cfg, Next(cfg, s, a), tok, s.workers[tok])
  {
    var w := s.workers[tok];
    assert PlanSound(cfg, s, tok, w);
    if !w.Stopped? {
      SourcesStay(cfg, s, a, w.id);
      if HasToken(Next(cfg, s, a).db, w.id, tok) {
        if !HasToken(s.db, w.id, tok) {
          LostTokenStaysLost(cfg, s, a, w.id, tok);
        } else {
          KeptTokenMeansQuiet(cfg, s, a, w.id, tok);
        }
      }
    }
  }

  lemma SourcesStay(cfg: Config, s: State, a: Action, id: SourceId)
    requires id in s.db.sources
    ensures id in Next(cfg, s, a).db.sources && s.today <= Next(cfg, s, a).today
  {
    if a.Publish? && a.tok in s.workers && s.workers[a.tok].Planned? {
      var w := s.workers[a.tok];
      PlanRetires(w.rows, w.scan);
      PublishAllOrNothing(s.db, w.id, a.tok, WorkerPlan(w), w.file, w.scan.issues == [], a.now);
    }
  }

  /** The stored count and latest date describe the stored active draws. */
  ghost predicate CountSound(s: State, id: SourceId)
    requires id in s.db.sources
  {
    var active := ActiveKeys(RowsOf(s.db.draws, id));
    s.db.sources[id].activeCount == |active| && s.db.sources[id].latest == LatestDay(active)
  }

  ghost predicate CountsSound(s: State) {
    forall id :: id in s.db.sources ==> CountSound(s, id)
  }

  /** A published revision parsed on its day and is still what the table shows; no active
      draw is dated after that day. */
  ghost predicate RevisionShown(cfg: Config, id: SourceId, r: Revision, rows: Table)
    requires id in cfg.sources
  {
    && ParseFile(r.lines, cfg.sources[id], cfg.read(id), r.day) == Some(r.scan)
    && Settled(rows, r.scan)
    && (forall k :: k in ActiveKeys(rows) ==> k.day <= r.day)
  }

  /** The stored digest is that of the last published revision. */
  ghost predicate RevisionSound(cfg: Config, s: State, id: SourceId)
    requires id in s.db.sources && id in cfg.sources
  {
    if id in s.published then
      && s.db.sources[id].digest == Some(s.published[id].lines) && s.published[id].day <= s.today
      && RevisionShown(cfg, id, s.published[id], RowsOf(s.db.draws, id))
    else
      s.db.sources[id].digest == None && ActiveKeys(RowsOf(s.db.draws, id)) == {}
  }

  ghost predicate HistorySound(cfg: Config, s: State) {
    && (forall id :: id in s.published ==> id in s.db.sources)
    && (forall id :: id in s.db.sources && id in cfg.sources ==> RevisionSound(cfg, s, id))
  }

  lemma QuietKeepsSource(cfg: Config, s: State, t: State, id: SourceId)
    requires TableSound(cfg, s) && CountsSound(s) && HistorySound(cfg, s)
    requires QuietFor(s, t, id) && id in t.db.sources && id in cfg.sources
    ensures CountSound(t, id) && RevisionSound(cfg, t, id)
  {
    if id in s.db.sources {
      assert CountSound(s, id) && RevisionSound(cfg, s, id);
    } else {
      assert ActiveKeys(RowsOf(s.db.draws, id)) == {};
    }
  }

  lemma PublishKeepsSource(cfg: Config, s: State, t: State, w: Worker, tok: Token, now: nat, id: SourceId)
    requires TableSound(cfg, s) && w.Planned? && PlanSound(cfg, s, tok, w) && HasToken(s.db, w.id, tok)
    requires Committed(cfg, s, t, w, now)
    requires id in s.db.sources && id in cfg.sources && CountSound(s, id) && RevisionSound(cfg, s, id)
    ensures CountSound(t, id) && RevisionSound(cfg, t, id)
  {
    if id == w.id {
      PlanCountsActiveSet(s.db.draws, w.scan, cfg.sources[w.id], now);
      PublishedRevisionShown(cfg, s, w, tok, now);
    }
  }

  lemma SourceStaysSound(cfg: Config, s: State, a: Action, id: SourceId)
    requires TableSound(cfg, s) && PlansSound(cfg, s) && CountsSound(s) && HistorySound(cfg, s)
    requires id in Next(cfg, s, a).db.sources && id in cfg.sources
    ensures CountSound(Next(cfg, s, a), id) && RevisionSound(cfg, Next(cfg, s, a), id)
  {
    var t := Next(cfg, s, a);
    if !a.Publish? {
      OnlyPublishWrites(cfg, s, a, id);
      QuietKeepsSource(cfg, s, t, id);
    } else if a.tok in s.workers && s.workers[a.tok].Planned? {
      PublishStep(cfg, s, a.tok, a.now);
      var w := s.workers[a.tok];
      if LeaseHeld(s.db, w.id, a.tok, a.now) {
        PublishKeepsSource(cfg, s, t, w, a.tok, a.now, id);
      } else {
        QuietKeepsSource(cfg, s, t, id);
      }
    } else {
      QuietKeepsSource(cfg, s, t, id);
    }
  }

  lemma PublishedStaysRegistered(cfg: Config, s: State, a: Action, id: SourceId)
    requires PlansSound(cfg, s) && HistorySound(cfg, s) && id in Next(cfg, s, a).published
    ensures id in Next(cfg, s, a).db.sources
  {
    if a.Publish? && a.tok in s.workers {
      assert PlanSound(cfg, s, a.tok, s.workers[a.tok]);
    }
    assert id in s.db.sources;
    SourcesStay(cfg, s, a, id);
  }

  lemma PublishedRevisionShown(cfg: Config, s: State, w: Worker, tok: Token, now: nat)
    requires TableSound(cfg, s) && w.Planned? && PlanSound(cfg, s, tok, w)
    requires HasToken(s.db, w.id, tok) && RevisionSound(cfg, s, w.id)
    ensures RevisionShown(cfg, w.id, Revision(w.file.lines, w.day, w.scan),
                          RowsOf(NewTable(s.db.draws, w.scan, w.id, now), w.id))
  {
    var src := cfg.sources[w.id];
    var rows := RowsOf(NewTable(s.db.draws, w.scan, w.id, now), w.id);
    TableIsPublishable(cfg, s, w.file.lines, w.id, w.day);
    PublishSettles(s.db.draws, w.scan, src, now);
    PublishIsReplacement(s.db.draws, w.scan, src, now);
    ReplacementKeys(w.rows, w.scan);
    assert ActiveKeys(rows) == ActiveContent(rows).Keys;
    ScanShape(w.file.lines, src, cfg.read(w.id), w.day);
    ByKeyMembers(w.scan.draws);
  }

  ghost predicate Sound(cfg: Config, s: State) {
    TokensIssued(s) && TableSound(cfg, s) && PlansSound(cfg, s) && CountsSound(s) && HistorySound(cfg, s)
  }

  lemma StepKeepsSound(cfg: Config, s: State, a: Action)
    requires Sound(cfg, s)
    ensures Sound(cfg, Next(cfg, s, a))
  {
    TokensStayIssued(cfg, s, a);
    TableStaysSound(cfg, s, a);
    forall tok | tok in Next(cfg, s, a).workers
      ensures PlanSound(cfg, Next(cfg, s, a), tok, Next(cfg, s, a).workers[tok])
    {
      PlanStaysSound(cfg, s, a, tok);
    }
    forall id | id in Next(cfg, s, a).db.sources
      ensures CountSound(Next(cfg, s, a), id) && RevisionSound(cfg, Next(cfg, s, a), id)
    {
      SourceStaysSound(cfg, s, a, id);
    }
    forall id | id in Next(cfg, s, a).published ensures id in Next(cfg, s, a).db.sources {
      PublishedStaysRegistered(cfg, s, a, id);
    }
  }

  /** Every interleaving keeps the store sound. */
  lemma {:induction false} RunIsSound(cfg: Config, s: State, actions: seq<Action>)
    requires Sound(cfg, s)
    ensures Sound(cfg, Run(cfg, s, actions))
  {
    if actions != [] {
      RunIsSound(cfg, s, actions[..|actions| - 1]);
      StepKeepsSound(cfg, Run(cfg, s, actions[..|actions| - 1]), actions[|actions| - 1]);
    }
  }

  lemma {:induction false} WorkersStay(cfg: Config, s: State, actions: seq<Action>)
    requires Sound(cfg, s)
    ensures s.workers.Keys <= Run(cfg, s, actions).workers.Keys
  {
    if actions != [] {
      var before := actions[..|actions| - 1];
      WorkersStay(cfg, s, before);
      RunIsSound(cfg, s, before);
      TokensStayIssued(cfg, Run(cfg, s, before), actions[|actions| - 1]);
    }
  }

  /** A source on which a token is found at the end of a run carried it all along; meanwhile
      nobody acquired its lease and its draws stayed the same. */
  lemma {:induction false} HeldThroughout(cfg: Config, s: State, actions: seq<Action>, id: SourceId, tok: Token, i: nat)
    requires Sound(cfg, s) && tok in s.workers && HasToken(Run(cfg, s, actions).db, id, tok) && i <= |actions|
    ensures HasToken(Run(cfg, s, actions[..i]).db, id, tok)
    ensures RowsOf(Run(cfg, s, actions[..i]).db.draws, id) == RowsOf(Run(cfg, s, actions).db.draws, id)
    ensures i < |actions| ==> !Acquires(Run(cfg, s, actions[..i]), actions[i], id)
  {
    if i == |actions| {
      assert actions[..i] == actions;
    } else {
      var before := actions[..|actions| - 1];
      var last, now := Run(cfg, s, before), actions[|actions| - 1];
      WorkersStay(cfg, s, before);
      RunIsSound(cfg, s, before);
      if !HasToken(last.db, id, tok) {
        LostTokenStaysLost(cfg, last, now, id, tok);
      }
      KeptTokenMeansQuiet(cfg, last, now, id, tok);
      HeldThroughout(cfg, s, before, id, tok, i);
      assert before[..i] == actions[..i];
    }
  }

  lemma EmptyStoreIsSound(cfg: Config)
    requires WellConfigured(cfg)
    ensures Sound(cfg, INITIAL)
  {
  }

  // ---- what a run guarantees ----

  ghost predicate Reachable(cfg: Config, s: State) {
    WellConfigured(cfg) && exists actions :: s == Run(cfg, INITIAL, actions)
  }

  lemma ReachableIsSound(cfg: Config, s: State)
    requires Reachable(cfg, s)
    ensures Sound(cfg, s)
  {
    var actions :| s == Run(cfg, INITIAL, actions);
    EmptyStoreIsSound(cfg);
    RunIsSound(cfg, INITIAL, actions);
  }

  /** Throughout these actions nobody acquires the source's lease and its rows stay `rows`. */
  ghost predicate Undisturbed(cfg: Config, s: State, actions: seq<Action>, id: SourceId, rows: Table) {
    && (forall i :: 0 <= i < |actions| ==> !Acquires(Run(cfg, s, actions[..i]), actions[i], id))
    && (forall i :: 0 <= i <= |actions| ==> RowsOf(Run(cfg, s, actions[..i]).db.draws, id) == rows)
  }

  lemma HeldMeansUndisturbed(cfg: Config, s: State, actions: seq<Action>, id: SourceId, tok: Token)
    requires Sound(cfg, s) && tok in s.workers && HasToken(Run(cfg, s, actions).db, id, tok)
    ensures Undisturbed(cfg, s, actions, id, RowsOf(s.db.draws, id))
  {
    HeldThroughout(cfg, s, actions, id, tok, 0);
    assert actions[..0] == [];
    forall i | 0 <= i <= |actions|
      ensures RowsOf(Run(cfg, s, actions[..i]).db.draws, id) == RowsOf(s.db.draws, id)
      ensures i < |actions| ==> !Acquires(Run(cfg, s, actions[..i]), actions[i], id)
    {
      HeldThroughout(cfg, s, actions, id, tok, i);
    }
  }

  /** A worker that still holds its lease planned on the rows the store has. */
  lemma PlannedRowsAreStored(cfg: Config, s: State, tok: Token, id: SourceId)
    requires Sound(cfg, s) && tok in s.workers && s.workers[tok].Planned? && s.workers[tok].id == id
    requires HasToken(s.db, id, tok)
    ensures s.workers[tok].rows == RowsOf(s.db.draws, id)
  {
    assert PlanSound(cfg, s, tok, s.workers[tok]);
  }

  lemma AcquiringChangesNoDraw(cfg: Config, s: State, start: nat, tok: Token, id: SourceId)
    requires Acquires(s, Start(tok, id, start), id)
    ensures Next(cfg, s, Start(tok, id, start)).db.draws == s.db.draws
    ensures tok in Next(cfg, s, Start(tok, id, start)).workers
  {
  }

  lemma HeldPlanIsUndisturbed(cfg: Config, s: State, since: seq<Action>, tok: Token, id: SourceId)
    requires Sound(cfg, s) && tok in s.workers
    requires var t := Run(cfg, s, since);
      tok in t.workers && t.workers[tok].Planned? && t.workers[tok].id == id && HasToken(t.db, id, tok)
    ensures Undisturbed(cfg, s, since, id, RowsOf(s.db.draws, id))
    ensures Run(cfg, s, since).workers[tok].rows == RowsOf(s.db.draws, id)
  {
    HeldMeansUndisturbed(cfg, s, since, id, tok);
    RunIsSound(cfg, s, since);
    PlannedRowsAreStored(cfg, Run(cfg, s, since), tok, id);
    assert since[..|since|] == since;
  }

  /** In every interleaving, a publish that commits proves that since its worker acquired the
      lease nobody else acquired it and the source's draws did not change; the rows its plan
      was computed from are the rows it is applied to. */
  lemma CommitMeansUndisturbed(cfg: Config, s: State, start: nat, since: seq<Action>, tok: Token, id: SourceId,
                               now: nat)
    requires Reachable(cfg, s) && Acquires(s, Start(tok, id, start), id)
    requires var t := Run(cfg, Next(cfg, s, Start(tok, id, start)), since);
      tok in t.workers && t.workers[tok].Planned? && t.workers[tok].id == id && LeaseHeld(t.db, id, tok, now)
    ensures Undisturbed(cfg, Next(cfg, s, Start(tok, id, start)), since, id, RowsOf(s.db.draws, id))
    ensures Run(cfg, Next(cfg, s, Start(tok, id, start)), since).workers[tok].rows == RowsOf(s.db.draws, id)
  {
    ReachableIsSound(cfg, s);
    StepKeepsSound(cfg, s, Start(tok, id, start));
    AcquiringChangesNoDraw(cfg, s, start, tok, id);
    HeldPlanIsUndisturbed(cfg, Next(cfg, s, Start(tok, id, start)), since, tok, id);
  }

  /** The source's row carries the token, and the lease ends after `now`. */
  predicate LiveLease(db: Db, id: SourceId, tok: Token, now: nat) {
    && id in db.sources && db.sources[id].token == Some(tok)
    && db.sources[id].expires.Some? && now < db.sources[id].expires.value
  }

  /** A worker that lost its lease changes no draw and no source row, whatever it does; one whose
      lease ran out can at most record its failure. */
  lemma LostLeaseWritesNothing(cfg: Config, s: State, a: Action)
    requires a.Publish? || a.Shortcut? || a.Fail?
    requires a.tok in s.workers && !s.workers[a.tok].Stopped?
    requires var id := s.workers[a.tok].id;
      if a.Fail? then id in s.db.sources ==> s.db.sources[id].token != Some(a.tok)
      else !LiveLease(s.db, id, a.tok, a.now)
    ensures Next(cfg, s, a).db == s.db
  {
    if a.Publish? && s.workers[a.tok].Planned? {
      var w := s.workers[a.tok];
      PlanRetires(w.rows, w.scan);
      PublishAllOrNothing(s.db, w.id, a.tok, WorkerPlan(w), w.file, w.scan.issues == [], a.now);
    }
  }

  /** In every run, a committed publish replaces the source's active content by the parsed
      file (or lays the file over it when lines were quarantined) and drops at most four draws or
      one in two hundred; no other source's draws change. */
  lemma CommittedPublishReplaces(cfg: Config, s: State, tok: Token, now: nat)
    requires Reachable(cfg, s) && tok in s.workers && s.workers[tok].Planned?
    requires LiveLease(s.db, s.workers[tok].id, tok, now)
    ensures var w, t := s.workers[tok], Next(cfg, s, Publish(tok, now));
      var was, is_ := RowsOf(s.db.draws, w.id), RowsOf(t.db.draws, w.id);
      && ActiveContent(is_) == Replacement(was, w.scan)
      && !TooMany(|ActiveKeys(was) - ActiveKeys(is_)|, |ActiveKeys(was)|)
      && (forall id :: id != w.id ==> RowsOf(t.db.draws, id) == RowsOf(s.db.draws, id))
  {
    ReachableIsSound(cfg, s);
    assert PlanSound(cfg, s, tok, s.workers[tok]);
    PublishStep(cfg, s, tok, now);
    var w := s.workers[tok];
    PublishIsReplacement(s.db.draws, w.scan, cfg.sources[w.id], now);
    PublishDropsFew(s.db.draws, w.scan, cfg.sources[w.id], now);
  }

  /** One step keeps every row's first-seen time, and a row that appears was published just now. */
  lemma StepFirstSeen(cfg: Config, s: State, a: Action, k: Key)
    requires TableSound(cfg, s) && PlansSound(cfg, s)
    ensures var t := Next(cfg, s, a);
      && (k in s.db.draws ==> k in t.db.draws && t.db.draws[k].firstSeen == s.db.draws[k].firstSeen)
      && (k !in s.db.draws && k in t.db.draws ==> a.Publish? && t.db.draws[k].firstSeen == a.now)
  {
    if !a.Publish? {
      OnlyPublishWrites(cfg, s, a, 0);
    } else if a.tok in s.workers && s.workers[a.tok].Planned? {
      PublishStep(cfg, s, a.tok, a.now);
      var w := s.workers[a.tok];
      if LeaseHeld(s.db, w.id, a.tok, a.now) {
        RowsAfter(s.db.draws, w.scan, cfg.sources[w.id], a.now);
      }
    }
  }

  /** The `i`-th action of a run is the publish, at the given time, that first writes the key. */
  ghost predicate FirstWrites(cfg: Config, actions: seq<Action>, i: nat, k: Key, now: nat) {
    && i < |actions| && actions[i].Publish? && actions[i].now == now
    && k !in Run(cfg, INITIAL, actions[..i]).db.draws
    && k in Next(cfg, Run(cfg, INITIAL, actions[..i]), actions[i]).db.draws
  }

  lemma LastStepFirstSeen(cfg: Config, actions: seq<Action>, k: Key)
    requires WellConfigured(cfg) && actions != [] && k in Run(cfg, INITIAL, actions).db.draws
    ensures var s, t := Run(cfg, INITIAL, actions[..|actions| - 1]), Run(cfg, INITIAL, actions);
      if k in s.db.draws then t.db.draws[k].firstSeen == s.db.draws[k].firstSeen
      else FirstWrites(cfg, actions, |actions| - 1, k, t.db.draws[k].firstSeen)
  {
    EmptyStoreIsSound(cfg);
    RunIsSound(cfg, INITIAL, actions[..|actions| - 1]);
    StepFirstSeen(cfg, Run(cfg, INITIAL, actions[..|actions| - 1]), actions[|actions| - 1], k);
  }

  lemma LaterFirstWrites(cfg: Config, actions: seq<Action>, i: nat, k: Key, now: nat)
    requires actions != [] && FirstWrites(cfg, actions[..|actions| - 1], i, k, now)
    ensures FirstWrites(cfg, actions, i, k, now)
  {
    assert actions[..|actions| - 1][..i] == actions[..i];
  }

  /** In every run a row's first-seen time is the clock of the publish that first wrote its key. */
  lemma {:induction false} FirstSeenIsFirstPublish(cfg: Config, actions: seq<Action>, k: Key)
    requires WellConfigured(cfg) && k in Run(cfg, INITIAL, actions).db.draws
    ensures exists i :: FirstWrites(cfg, actions, i, k, Run(cfg, INITIAL, actions).db.draws[k].firstSeen)
  {
    if actions != [] {
      LastStepFirstSeen(cfg, actions, k);
      if k in Run(cfg, INITIAL, actions[..|actions| - 1]).db.draws {
        FirstSeenIsFirstPublish(cfg, actions[..|actions| - 1], k);
        var now := Run(cfg, INITIAL, actions).db.draws[k].firstSeen;
        var i: nat :| FirstWrites(cfg, actions[..|actions| - 1], i, k, now);
        LaterFirstWrites(cfg, actions, i, k, now);
      }
    }
  }

  /** In every reachable state the stored count and latest date of each source are the size
      and the maximum of its active draws. */
  lemma StoredCountsDescribeDraws(cfg: Config, s: State, id: SourceId)
    requires Reachable(cfg, s) && id in s.db.sources
    ensures s.db.sources[id].activeCount == |ActiveKeys(RowsOf(s.db.draws, id))|
    ensures s.db.sources[id].latest == LatestDay(ActiveKeys(RowsOf(s.db.draws, id)))
  {
    ReachableIsSound(cfg, s);
    assert CountSound(s, id);
  }

  /** One source from one state to a later one. */
  ghost predicate MovesForward(s: State, t: State, id: SourceId) {
    id in s.db.sources ==>
      && id in t.db.sources
      && s.db.sources[id].latest <= t.db.sources[id].latest
      && (s.db.sources[id].activeCount > 0 ==> t.db.sources[id].activeCount > 0)
  }

  lemma StepMovesForward(cfg: Config, s: State, a: Action, id: SourceId)
    requires TableSound(cfg, s) && PlansSound(cfg, s) && CountsSound(s)
    ensures MovesForward(s, Next(cfg, s, a), id)
  {
    if !a.Publish? {
      OnlyPublishWrites(cfg, s, a, id);
    } else if a.tok in s.workers && s.workers[a.tok].Planned? {
      PublishStep(cfg, s, a.tok, a.now);
      CommitMovesForward(cfg, s, Next(cfg, s, a), s.workers[a.tok], a.tok, a.now, id);
    }
  }

  lemma CommitMovesForward(cfg: Config, s: State, t: State, w: Worker, tok: Token, now: nat, id: SourceId)
    requires w.Planned? && PlanSound(cfg, s, tok, w) && CountsSound(s)
    requires if LeaseHeld(s.db, w.id, tok, now) then Committed(cfg, s, t, w, now) else t.db == s.db
    ensures MovesForward(s, t, id)
  {
    if LeaseHeld(s.db, w.id, tok, now) && id == w.id {
      assert CountSound(s, id);
      PlanMovesForward(s.db.draws, w.scan, cfg.sources[w.id], now);
    }
  }

  /** Over every run of refreshes, failures and shortcuts, a source's active set never becomes
      empty again once filled and its latest draw date never moves back. */
  lemma {:induction false} SourceNeverGoesBack(cfg: Config, s: State, more: seq<Action>, id: SourceId)
    requires Reachable(cfg, s)
    ensures MovesForward(s, Run(cfg, s, more), id)
  {
    if more != [] {
      var before := more[..|more| - 1];
      SourceNeverGoesBack(cfg, s, before, id);
      ReachableIsSound(cfg, s);
      RunIsSound(cfg, s, before);
      StepMovesForward(cfg, Run(cfg, s, before), more[|more| - 1], id);
    }
  }

  // ---- the digest shortcut ----

  /** Re-ingesting these lines today would be accepted and would write and retire nothing,
      and would compute the count and latest date the source already has. */
  ghost predicate ReingestIsNoOp(cfg: Config, s: State, id: SourceId, lines: seq<string>)
    requires id in cfg.sources && id in s.db.sources
  {
    var parsed := ParseFile(lines, cfg.sources[id], cfg.read(id), s.today);
    var rows := RowsOf(s.db.draws, id);
    && parsed.Some? && GuardPasses(rows, parsed.value.draws)
    && var p := PlanFor(rows, parsed.value);
       && p.changed == [] && p.retire == {}
       && p.activeCount == s.db.sources[id].activeCount && p.latest == s.db.sources[id].latest
  }

  lemma SettledReingest(cfg: Config, s: State, id: SourceId)
    requires Sound(cfg, s) && id in s.published && id in s.db.sources
    requires NoRowFallsDue(s.published[id].lines, cfg.sources[id], cfg.read(id), s.published[id].day, s.today)
    ensures ReingestIsNoOp(cfg, s, id, s.published[id].lines)
  {
    var r, src := s.published[id], cfg.sources[id];
    assert RevisionSound(cfg, s, id) && CountSound(s, id);
    SameScanLater(r.lines, src, cfg.read(id), r.day, s.today);
    ScanShape(r.lines, src, cfg.read(id), r.day);
    ReplayIsNoOp(RowsOf(s.db.draws, id), r.scan, src);
  }

  lemma DueRowIsIngested(cfg: Config, s: State, id: SourceId, i: nat)
    requires Sound(cfg, s) && id in s.published && id in s.db.sources
    requires var r := s.published[id];
      && i < |r.lines| && !Blank(r.lines[i])
      && var reading := RowReading(r.lines[i], cfg.sources[id], cfg.read(id));
         reading.Some? && r.day < reading.value.day <= s.today
    ensures !ReingestIsNoOp(cfg, s, id, s.published[id].lines)
  {
    var r, src, read := s.published[id], cfg.sources[id], cfg.read(id);
    assert RevisionSound(cfg, s, id);
    DueRowIsKept(r.lines, i, src, read, s.today);
    var k := KeyOf(src, RowReading(r.lines[i], src, read).value.day);
    UnknownKeyIsWritten(RowsOf(s.db.draws, id), ScanLines(r.lines, src, read, s.today).draws, k);
  }

  /** In every run, when a worker takes the digest shortcut under its lease, skipping the file
      agrees with ingesting it again exactly when no row of it has fallen due since it was
      published. */
  lemma ShortcutAgreesExactly(cfg: Config, s: State, tok: Token, now: nat)
    requires Reachable(cfg, s) && tok in s.workers && s.workers[tok].Fetched? && TakesShortcut(s.workers[tok])
    requires LeaseHeld(s.db, s.workers[tok].id, tok, now)
    ensures var id := s.workers[tok].id;
      && id in cfg.sources && id in s.published && s.published[id].lines == s.workers[tok].file.lines
      && (ReingestIsNoOp(cfg, s, id, s.workers[tok].file.lines) <==>
          NoRowFallsDue(s.published[id].lines, cfg.sources[id], cfg.read(id), s.published[id].day, s.today))
  {
    ReachableIsSound(cfg, s);
    var w := s.workers[tok];
    assert PlanSound(cfg, s, tok, w) && RevisionSound(cfg, s, w.id);
    var r, src, read := s.published[w.id], cfg.sources[w.id], cfg.read(w.id);
    if NoRowFallsDue(r.lines, src, read, r.day, s.today) {
      SettledReingest(cfg, s, w.id);
    } else {
      var i :| 0 <= i < |r.lines| && !Blank(r.lines[i])
        && var reading := RowReading(r.lines[i], src, read);
           reading.Some? && r.day < reading.value.day <= s.today;
      DueRowIsIngested(cfg, s, w.id, i);
    }
  }

  lemma CleanRevisionHasNothingDue(cfg: Config, s: State, id: SourceId)
    requires Sound(cfg, s) && id in s.published && id in cfg.sources && s.published[id].scan.issues == []
    ensures NoRowFallsDue(s.published[id].lines, cfg.sources[id], cfg.read(id), s.published[id].day, s.today)
  {
    assert RevisionSound(cfg, s, id);
    CleanFileStaysClean(s.published[id].lines, cfg.sources[id], cfg.read(id), s.published[id].day, s.today);
  }

  /** If the published revision quarantined nothing, the shortcut always agrees. */
  lemma CleanRevisionShortcutAgrees(cfg: Config, s: State, tok: Token, now: nat)
    requires Reachable(cfg, s) && tok in s.workers && s.workers[tok].Fetched? && TakesShortcut(s.workers[tok])
    requires LeaseHeld(s.db, s.workers[tok].id, tok, now)
    requires s.workers[tok].id in s.published && s.published[s.workers[tok].id].scan.issues == []
    ensures s.workers[tok].id in cfg.sources
    ensures ReingestIsNoOp(cfg, s, s.workers[tok].id, s.workers[tok].file.lines)
  {
    ShortcutAgreesExactly(cfg, s, tok, now);
    ReachableIsSound(cfg, s);
    CleanRevisionHasNothingDue(cfg, s, s.workers[tok].id);
  }
}
