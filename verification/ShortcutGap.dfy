/** A run in which the unchanged-digest shortcut skips a file that ingesting again would not. */
module ShortcutGap {
  import opened Csv
  import opened Draws
  import opened OfficialFile
  import opened SourceDiff
  import opened Refresh

  lemma RunSnoc(cfg: Config, s: State, actions: seq<Action>, a: Action)
    ensures Run(cfg, s, actions + [a]) == Next(cfg, Run(cfg, s, actions), a)
  {
    assert (actions + [a])[..|actions|] == actions;
  }

  lemma RunIsReachable(cfg: Config, actions: seq<Action>)
    requires WellConfigured(cfg)
    ensures Reachable(cfg, Run(cfg, INITIAL, actions))
  {
  }

  function Days(n: nat): seq<Action> {
    if n == 0 then [] else Days(n - 1) + [NextDay]
  }

  lemma {:induction false} DaysPass(cfg: Config, n: nat)
    ensures Run(cfg, INITIAL, Days(n)) == INITIAL.(today := n)
  {
    if n == 0 {
      assert Run(cfg, INITIAL, []) == INITIAL;
    } else {
      DaysPass(cfg, n - 1);
      RunSnoc(cfg, INITIAL, Days(n - 1), NextDay);
    }
  }

  /** On the given day a source is registered and a worker fetches a file. */
  function FirstFetch(id: SourceId, file: File, day: nat): seq<Action> {
    Days(day) + [Register(id, true)] + [Start(0, id, 0)] + [Fetch(0, file)]
  }

  /** The worker plans and publishes the file. */
  function FirstPublish(id: SourceId, file: File, day: nat): seq<Action> {
    FirstFetch(id, file, day) + [MakePlan(0)] + [Publish(0, 0)]
  }

  /** The next day another worker fetches the same file. */
  function SecondFetch(id: SourceId, file: File, day: nat): seq<Action> {
    FirstPublish(id, file, day) + [NextDay] + [Start(1, id, 0)] + [Fetch(1, file)]
  }

  const LEASED_ROW := NEW_ROW.(token := Some(0), expires := Some(LEASE_MS))

  lemma AfterFirstFetch(cfg: Config, id: SourceId, file: File, day: nat)
    requires id in cfg.sources && !file.fromCache
    ensures Run(cfg, INITIAL, FirstFetch(id, file, day))
            == State(Db(map[id := LEASED_ROW], map[]), map[0 := Fetched(id, LEASED_ROW, file)], day, map[])
  {
    var days := Days(day);
    DaysPass(cfg, day);
    RunSnoc(cfg, INITIAL, days, Register(id, true));
    RunSnoc(cfg, INITIAL, days + [Register(id, true)], Start(0, id, 0));
    RunSnoc(cfg, INITIAL, days + [Register(id, true)] + [Start(0, id, 0)], Fetch(0, file));
    assert map[id := NEW_ROW][id := LEASED_ROW] == map[id := LEASED_ROW];
    assert map[0 := Leased(id)][0 := Fetched(id, LEASED_ROW, file)] == map[0 := Fetched(id, LEASED_ROW, file)];
  }

  lemma AfterPlan(cfg: Config, id: SourceId, file: File, day: nat, scan: Scan)
    requires id in cfg.sources && !file.fromCache
    requires ParseFile(file.lines, cfg.sources[id], cfg.read(id), day) == Some(scan)
    ensures Run(cfg, INITIAL, FirstFetch(id, file, day) + [MakePlan(0)])
            == State(Db(map[id := LEASED_ROW], map[]), map[0 := Planned(id, file, day, scan, map[])], day, map[])
  {
    AfterFirstFetch(cfg, id, file, day);
    RunSnoc(cfg, INITIAL, FirstFetch(id, file, day), MakePlan(0));
    var w := Fetched(id, LEASED_ROW, file);
    assert RowsOf(map[], id) == map[] && ActiveKeys(map[]) == {};
    assert map[0 := w][0 := Planned(id, file, day, scan, map[])] == map[0 := Planned(id, file, day, scan, map[])];
  }

  /** What the first publish leaves behind. */
  ghost predicate Shown(s: State, id: SourceId, file: File, day: nat, scan: Scan) {
    && s.today == day && s.workers == map[0 := Stopped]
    && id in s.db.sources && s.db.sources[id].enabled && s.db.sources[id].token == None
    && s.db.sources[id].digest == Some(file.lines) && s.db.sources[id].parserVersion == PARSER_VERSION
    && id in s.published && s.published[id] == Revision(file.lines, day, scan)
  }

  lemma PublishCommits(cfg: Config, s: State, tok: Token, now: nat)
    requires Reachable(cfg, s) && tok in s.workers && s.workers[tok].Planned?
    requires LeaseHeld(s.db, s.workers[tok].id, tok, now)
    ensures Committed(cfg, s, Next(cfg, s, Publish(tok, now)), s.workers[tok], now)
  {
    ReachableIsSound(cfg, s);
    assert PlanSound(cfg, s, tok, s.workers[tok]);
    PublishStep(cfg, s, tok, now);
  }

  lemma PublishStops(cfg: Config, s: State, tok: Token, now: nat)
    requires tok in s.workers && s.workers[tok].Planned?
    ensures Next(cfg, s, Publish(tok, now)).workers == s.workers[tok := Stopped]
  {
  }

  lemma CommittedIsShown(cfg: Config, s: State, t: State, w: Worker)
    requires w.Planned? && Committed(cfg, s, t, w, 0) && t.workers == map[0 := Stopped]
    requires s.today == w.day && s.db.sources[w.id].enabled
    ensures Shown(t, w.id, w.file, w.day, w.scan)
  {
  }

  lemma SolePublishIsShown(cfg: Config, s: State, w: Worker)
    requires Reachable(cfg, s) && w.Planned? && s.workers == map[0 := w] && LeaseHeld(s.db, w.id, 0, 0)
    requires s.today == w.day && s.db.sources[w.id].enabled
    ensures Shown(Next(cfg, s, Publish(0, 0)), w.id, w.file, w.day, w.scan)
  {
    PublishCommits(cfg, s, 0, 0);
    PublishStops(cfg, s, 0, 0);
    assert map[0 := w][0 := Stopped] == map[0 := Stopped];
    CommittedIsShown(cfg, s, Next(cfg, s, Publish(0, 0)), w);
  }

  lemma AfterFirstPublish(cfg: Config, id: SourceId, file: File, day: nat, scan: Scan)
    requires WellConfigured(cfg) && id in cfg.sources && !file.fromCache
    requires ParseFile(file.lines, cfg.sources[id], cfg.read(id), day) == Some(scan)
    ensures Shown(Run(cfg, INITIAL, FirstPublish(id, file, day)), id, file, day, scan)
  {
    var plan := FirstFetch(id, file, day) + [MakePlan(0)];
    var s, w := Run(cfg, INITIAL, plan), Planned(id, file, day, scan, map[]);
    AfterPlan(cfg, id, file, day, scan);
    RunIsReachable(cfg, plan);
    RunSnoc(cfg, INITIAL, plan, Publish(0, 0));
    SolePublishIsShown(cfg, s, w);
  }

  lemma AfterSecondFetch(cfg: Config, id: SourceId, file: File, day: nat, scan: Scan)
    requires Shown(Run(cfg, INITIAL, FirstPublish(id, file, day)), id, file, day, scan) && !file.fromCache
    ensures var s := Run(cfg, INITIAL, SecondFetch(id, file, day));
      && s.today == day + 1 && 1 in s.workers && s.workers[1].Fetched? && s.workers[1].id == id
      && s.workers[1].file == file && TakesShortcut(s.workers[1]) && LeaseHeld(s.db, id, 1, 0)
      && id in s.published && s.published[id] == Revision(file.lines, day, scan)
  {
    var first := FirstPublish(id, file, day);
    RunSnoc(cfg, INITIAL, first, NextDay);
    RunSnoc(cfg, INITIAL, first + [NextDay], Start(1, id, 0));
    RunSnoc(cfg, INITIAL, first + [NextDay] + [Start(1, id, 0)], Fetch(1, file));
  }

  /** For every configured source and any two lines that read as its draws of consecutive days: from
      the empty store, the file of these lines is published on the first day; on the second day a
      worker that fetches it again takes the shortcut under its lease, and ingesting the file again
      would not have been a no-op. */
  lemma ShortcutCanDisagree(cfg: Config, id: SourceId, a: string, b: string, day: Day)
    requires WellConfigured(cfg) && id in cfg.sources
    requires ReadsAs(a, cfg.sources[id], cfg.read(id), day) && ReadsAs(b, cfg.sources[id], cfg.read(id), day + 1)
    ensures var s := Run(cfg, INITIAL, SecondFetch(id, File([a, b], false), day));
      && Reachable(cfg, s) && id in s.db.sources
      && 1 in s.workers && s.workers[1].Fetched? && TakesShortcut(s.workers[1]) && LeaseHeld(s.db, id, 1, 0)
      && !ReingestIsNoOp(cfg, s, id, [a, b])
  {
    var file := File([a, b], false);
    var src, read := cfg.sources[id], cfg.read(id);
    var s := Run(cfg, INITIAL, SecondFetch(id, file, day));
    QuarantinedRowCanFallDue(a, b, src, read, day);
    var scan := ParseFile([a, b], src, read, day).value;
    AfterFirstPublish(cfg, id, file, day, scan);
    AfterSecondFetch(cfg, id, file, day, scan);
    RunIsReachable(cfg, SecondFetch(id, file, day));
    ShortcutAgreesExactly(cfg, s, 1, 0);
  }
}
