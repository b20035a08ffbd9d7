/** The incremental publish of one export: completeness guard, insert/update/retire diff and
    the table writes, against wholesale replacement of the source's active draws. */
module SourceDiff {
  import opened Csv
  import opened Draws
  import opened OfficialFile

  datatype DrawRow = DrawRow(content: Content, fingerprint: string, source: SourceId, active: bool, firstSeen: nat)

  /** The draw table; its primary key is the natural key. */
  type Table = map<Key, DrawRow>

  function RowsOf(t: Table, id: SourceId): Table {
    map k | k in t && t[k].source == id :: t[k]
  }

  function ActiveKeys(t: Table): set<Key> {
    set k | k in t && t[k].active
  }

  function ActiveContent(t: Table): map<Key, Content> {
    map k | k in t && t[k].active :: t[k].content
  }

  /** Every stored key of the source carries the source's own game and session, and no
      other source stores such a key. */
  ghost predicate OwnsItsKeys(t: Table, src: Source) {
    forall k :: k in t ==> (t[k].source == src.id <==> k == KeyOf(src, k.day))
  }

  function ParsedContent(draws: seq<ParsedDraw>): map<Key, Content> {
    map k | k in ByKey(draws) :: ByKey(draws)[k].content
  }

  /** Stored rows and parsed draws of one key with equal fingerprints have equal content. */
  ghost predicate Telling(t: Table, draws: seq<ParsedDraw>) {
    forall k :: k in t && k in ByKey(draws) && t[k].fingerprint == ByKey(draws)[k].fingerprint ==>
      t[k].content == ByKey(draws)[k].content
  }

  // ---- latest draw date ----

  function Max(a: nat, b: nat): nat {
    if a > b then a else b
  }

  ghost function LatestDay(keys: set<Key>): (d: nat)
    ensures forall k :: k in keys ==> k.day <= d
    ensures if keys == {} then d == 0 else exists k :: k in keys && k.day == d
  {
    if keys == {} then 0
    else var k :| k in keys; assert keys == keys - {k} + {k}; Max(k.day, LatestDay(keys - {k}))
  }

  lemma LatestOfUnion(a: set<Key>, b: set<Key>)
    ensures LatestDay(a + b) == Max(LatestDay(a), LatestDay(b))
  {
    if a + b != {} {
      var k :| k in a + b && k.day == LatestDay(a + b);
    }
  }

  method LatestOfKeys(keys: set<Key>) returns (latest: nat)
    ensures latest == LatestDay(keys)
  {
    latest := 0;
    var rest := keys;
    while rest != {}
      invariant rest <= keys
      invariant latest == LatestDay(keys - rest)
      decreases rest
    {
      var k :| k in rest;
      LatestOfUnion(keys - rest, {k});
      assert keys - (rest - {k}) == (keys - rest) + {k};
      latest := Max(latest, k.day);
      rest := rest - {k};
    }
    assert keys - rest == keys;
  }

  // ---- guard and diff ----

  function Days(draws: seq<ParsedDraw>): set<Day> {
    if draws == [] then {} else Days(draws[..|draws| - 1]) + {draws[|draws| - 1].key.day}
  }

  /** Active rows whose date the file does not mention; the source compares dates only. */
  function Missing(existing: Table, draws: seq<ParsedDraw>): set<Key> {
    set k | k in existing && existing[k].active && k.day !in Days(draws)
  }

  function AllowedMissing(active: nat): nat {
    Max(4, active / 200)
  }

  /** Refuses a file that would move the latest date back or drop too many draws. */
  ghost predicate GuardPasses(existing: Table, draws: seq<ParsedDraw>) {
    Tolerable(ActiveKeys(existing), Keys(draws), |Missing(existing, draws)|)
  }

  ghost predicate Tolerable(active: set<Key>, keys: set<Key>, missing: nat) {
    active == {} || (LatestDay(active) <= LatestDay(keys) && missing <= AllowedMissing(|active|))
  }

  /** Active rows on whose date the file has no draw. */
  ghost function Dropped(existing: Table, draws: seq<ParsedDraw>): set<Key> {
    set k | k in existing && existing[k].active && forall d :: d in draws ==> d.key.day != k.day
  }

  /** More than four, and more than one in two hundred. */
  predicate TooMany(dropped: nat, active: nat) {
    dropped > 4 && 200 * dropped > active
  }

  predicate AllBefore(draws: seq<ParsedDraw>, day: Day) {
    forall d :: d in draws ==> d.key.day < day
  }

  /** Some active row is later than everything in the file, or the file drops too many. */
  ghost predicate Refused(existing: Table, draws: seq<ParsedDraw>) {
    || (exists k :: k in existing && existing[k].active && AllBefore(draws, k.day))
    || TooMany(|Dropped(existing, draws)|, |ActiveKeys(existing)|)
  }

  lemma {:induction false} DaysOfDraws(draws: seq<ParsedDraw>, day: Day)
    requires DistinctKeys(draws)
    ensures day in Days(draws) <==> exists d :: d in draws && d.key.day == day
    ensures day in Days(draws) <==> exists k :: k in Keys(draws) && k.day == day
  {
    if draws != [] {
      var before, last := draws[..|draws| - 1], draws[|draws| - 1];
      DaysOfDraws(before, day);
      assert last in draws && last.key in Keys(draws);
      if day in Days(before) {
        var d :| d in before && d.key.day == day;
        assert d in draws;
        var k :| k in Keys(before) && k.day == day;
        assert k in Keys(draws);
      }
    }
  }

  lemma DroppedAreMissing(existing: Table, draws: seq<ParsedDraw>)
    requires DistinctKeys(draws)
    ensures Dropped(existing, draws) == Missing(existing, draws)
  {
    forall k | k in existing ensures k.day in Days(draws) <==> exists d :: d in draws && d.key.day == k.day {
      DaysOfDraws(draws, k.day);
    }
  }

  lemma LaterThanAll(draws: seq<ParsedDraw>, day: Day)
    requires DistinctKeys(draws)
    ensures LatestDay(Keys(draws)) < day <==> AllBefore(draws, day)
  {
    forall d | d in draws ensures d.key.day <= LatestDay(Keys(draws)) {
      DaysOfDraws(draws, d.key.day);
    }
    if Keys(draws) != {} {
      var k :| k in Keys(draws) && k.day == LatestDay(Keys(draws));
      DaysOfDraws(draws, k.day);
    }
  }

  lemma RegressesExactly(existing: Table, draws: seq<ParsedDraw>)
    requires DistinctKeys(draws)
    ensures LatestDay(Keys(draws)) < LatestDay(ActiveKeys(existing)) <==>
      exists k :: k in existing && existing[k].active && AllBefore(draws, k.day)
  {
    var active := ActiveKeys(existing);
    if active != {} {
      var k :| k in active && k.day == LatestDay(active);
      LaterThanAll(draws, k.day);
    }
    forall k | k in active && AllBefore(draws, k.day)
      ensures LatestDay(Keys(draws)) < LatestDay(active)
    {
      LaterThanAll(draws, k.day);
    }
  }

  /** The guard refuses a file exactly when a stored active draw is later than everything in it,
      or it drops more than four active draws that are more than one in two hundred. */
  lemma GuardRefusesExactly(existing: Table, draws: seq<ParsedDraw>)
    requires DistinctKeys(draws)
    ensures GuardPasses(existing, draws) <==> !Refused(existing, draws)
  {
    DroppedAreMissing(existing, draws);
    RegressesExactly(existing, draws);
    if ActiveKeys(existing) == {} {
      assert Missing(existing, draws) == {};
    }
  }

  predicate NeedsWrite(existing: Table, d: ParsedDraw) {
    d.key !in existing || !existing[d.key].active || existing[d.key].fingerprint != d.fingerprint
  }

  function Changed(existing: Table, draws: seq<ParsedDraw>): seq<ParsedDraw> {
    if draws == [] then []
    else
      var n := |draws|;
      Changed(existing, draws[..n - 1]) + (if NeedsWrite(existing, draws[n - 1]) then [draws[n - 1]] else [])
  }

  datatype Counts = Counts(inserted: nat, updated: nat, kept: nat, reactivated: nat)

  function Tally(existing: Table, draws: seq<ParsedDraw>): Counts {
    if draws == [] then Counts(0, 0, 0, 0)
    else
      var c, d := Tally(existing, draws[..|draws| - 1]), draws[|draws| - 1];
      if d.key !in existing then c.(inserted := c.inserted + 1)
      else if !NeedsWrite(existing, d) then c.(kept := c.kept + 1)
      else if existing[d.key].active then c.(updated := c.updated + 1)
      else c.(updated := c.updated + 1, reactivated := c.reactivated + 1)
  }

  /** Parsed draws that are stored, active and the same. */
  ghost function KeptKeys(existing: Table, draws: seq<ParsedDraw>): set<Key> {
    set k | k in ByKey(draws) && k in existing && existing[k].active
            && existing[k].fingerprint == ByKey(draws)[k].fingerprint
  }

  ghost function Inactive(existing: Table): set<Key> {
    set k | k in existing && !existing[k].active
  }

  /** What the counters count: every draw once as inserted, updated or kept. */
  ghost predicate CountsDescribe(c: Counts, existing: Table, draws: seq<ParsedDraw>) {
    && c.inserted == |Keys(draws) - existing.Keys|
    && c.kept == |KeptKeys(existing, draws)|
    && c.reactivated == |Keys(draws) * Inactive(existing)|
    && c.inserted + c.updated + c.kept == |draws|
  }

  lemma {:induction false} TallyKeeps(existing: Table, draws: seq<ParsedDraw>)
    requires DistinctKeys(draws)
    ensures Tally(existing, draws).kept == |KeptKeys(existing, draws)|
  {
    if draws != [] {
      TallyKeeps(existing, draws[..|draws| - 1]);
      KeptStep(existing, draws);
    }
  }

  lemma {:induction false} TallyInserts(existing: Table, draws: seq<ParsedDraw>)
    requires DistinctKeys(draws)
    ensures Tally(existing, draws).inserted == |Keys(draws) - existing.Keys|
  {
    if draws != [] {
      TallyInserts(existing, draws[..|draws| - 1]);
      assert Keys(draws) == Keys(draws[..|draws| - 1]) + {draws[|draws| - 1].key};
      OneMoreKey(Keys(draws[..|draws| - 1]), draws[|draws| - 1].key, existing.Keys);
    }
  }

  lemma {:induction false} TallyReactivates(existing: Table, draws: seq<ParsedDraw>)
    requires DistinctKeys(draws)
    ensures Tally(existing, draws).reactivated == |Keys(draws) * Inactive(existing)|
  {
    if draws != [] {
      TallyReactivates(existing, draws[..|draws| - 1]);
      assert Keys(draws) == Keys(draws[..|draws| - 1]) + {draws[|draws| - 1].key};
      OneMoreShared(Keys(draws[..|draws| - 1]), draws[|draws| - 1].key, Inactive(existing));
    }
  }

  lemma {:induction false} TallyTotals(existing: Table, draws: seq<ParsedDraw>)
    ensures var c := Tally(existing, draws); c.inserted + c.updated + c.kept == |draws|
  {
    if draws != [] {
      TallyTotals(existing, draws[..|draws| - 1]);
    }
  }

  lemma TallyDescribes(existing: Table, draws: seq<ParsedDraw>)
    requires DistinctKeys(draws)
    ensures CountsDescribe(Tally(existing, draws), existing, draws)
  {
    TallyKeeps(existing, draws);
    TallyInserts(existing, draws);
    TallyReactivates(existing, draws);
    TallyTotals(existing, draws);
  }

  lemma OneMoreKey(before: set<Key>, k: Key, stored: set<Key>)
    requires k !in before
    ensures |before + {k} - stored| == |before - stored| + (if k in stored then 0 else 1)
  {
    assert before + {k} - stored == before - stored + (if k in stored then {} else {k});
  }

  lemma OneMoreShared(before: set<Key>, k: Key, inactive: set<Key>)
    requires k !in before
    ensures |(before + {k}) * inactive| == |before * inactive| + (if k in inactive then 1 else 0)
  {
    assert (before + {k}) * inactive == before * inactive + (if k in inactive then {k} else {});
  }

  lemma KeptStep(existing: Table, draws: seq<ParsedDraw>)
    requires draws != [] && DistinctKeys(draws)
    ensures var before, last := draws[..|draws| - 1], draws[|draws| - 1];
      KeptKeys(existing, draws) == KeptKeys(existing, before) + (if NeedsWrite(existing, last) then {} else {last.key})
    ensures draws[|draws| - 1].key !in KeptKeys(existing, draws[..|draws| - 1])
  {
  }

  /** The diff loop with its counters. */
  method CountChanges(existing: Table, draws: seq<ParsedDraw>) returns (c: Counts, changed: seq<ParsedDraw>)
    ensures changed == Changed(existing, draws) && c == Tally(existing, draws)
    ensures DistinctKeys(draws) ==> CountsDescribe(c, existing, draws)
  {
    var inserted, updated, kept, reactivated := 0, 0, 0, 0;
    changed := [];
    for i := 0 to |draws|
      invariant changed == Changed(existing, draws[..i])
      invariant Counts(inserted, updated, kept, reactivated) == Tally(existing, draws[..i])
    {
      assert draws[..i + 1][..i] == draws[..i];
      var candidate := draws[i];
      if candidate.key !in existing {
        inserted := inserted + 1;
        changed := changed + [candidate];
      } else if existing[candidate.key].active
                && existing[candidate.key].fingerprint == candidate.fingerprint {
        kept := kept + 1;
      } else {
        updated := updated + 1;
        if !existing[candidate.key].active {
          reactivated := reactivated + 1;
        }
        changed := changed + [candidate];
      }
    }
    assert draws[..|draws|] == draws;
    c := Counts(inserted, updated, kept, reactivated);
    if DistinctKeys(draws) {
      TallyDescribes(existing, draws);
    }
  }

  /** Retirement names rows by date and session. */
  datatype Slot = Slot(day: Day, session: Session)

  function Slots(keys: set<Key>): set<Slot> {
    set k | k in keys :: Slot(k.day, k.session)
  }

  function Gone(existing: Table, scan: Scan): set<Slot> {
    if scan.issues == [] then Slots(Missing(existing, scan.draws)) else {}
  }

  /** What one publish writes: draws to upsert, slots to retire, and the source's new
      active count and latest date, computed from the counters. */
  datatype Plan = Plan(changed: seq<ParsedDraw>, retire: set<Slot>, retired: nat, activeCount: nat, latest: nat)

  ghost function PlanFor(existing: Table, scan: Scan): Plan {
    var draws, active := scan.draws, ActiveKeys(existing);
    var changed := Changed(existing, draws);
    if scan.issues == [] then
      Plan(changed, Gone(existing, scan), |Missing(existing, draws)|, |draws|, LatestDay(Keys(draws)))
    else
      Plan(changed, {}, 0,
           |active| + Tally(existing, draws).inserted + Tally(existing, draws).reactivated,
           Max(LatestDay(Keys(draws)), LatestDay(active)))
  }

  /** `None` is the thrown schema mismatch. */
  method ComputePlan(existing: Table, scan: Scan) returns (r: Option<Plan>)
    requires DistinctKeys(scan.draws)
    ensures r.None? <==> Refused(existing, scan.draws)
    ensures r.Some? ==> r.value == PlanFor(existing, scan)
  {
    GuardRefusesExactly(existing, scan.draws);
    var draws := scan.draws;
    var active := ActiveKeys(existing);
    var candidateLatest := LatestOfKeys(Keys(draws));
    var existingLatest := LatestOfKeys(active);
    var missing := if active == {} then {} else Missing(existing, draws);
    assert Missing(existing, draws) <= active;
    assert missing == Missing(existing, draws);
    if active != {} && (candidateLatest < existingLatest || |missing| > AllowedMissing(|active|)) {
      return None;
    }
    var c, changed := CountChanges(existing, draws);
    if scan.issues == [] {
      r := Some(Plan(changed, Slots(missing), |missing|, |draws|, candidateLatest));
    } else {
      r := Some(Plan(changed, {}, 0, |active| + c.inserted + c.reactivated, Max(candidateLatest, existingLatest)));
    }
  }

  // ---- table writes ----

  /** First-seen times survive a rewrite. */
  function WrittenRow(t: Table, d: ParsedDraw, id: SourceId, now: nat): DrawRow {
    DrawRow(d.content, d.fingerprint, id, true, if d.key in t then t[d.key].firstSeen else now)
  }

  function Upsert(t: Table, d: ParsedDraw, id: SourceId, now: nat): Table {
    t[d.key := WrittenRow(t, d, id, now)]
  }

  function UpsertAll(t: Table, ds: seq<ParsedDraw>, id: SourceId, now: nat): Table {
    if ds == [] then t
    else Upsert(UpsertAll(t, ds[..|ds| - 1], id, now), ds[|ds| - 1], id, now)
  }

  function Retire(t: Table, id: SourceId, gone: set<Slot>): Table {
    map k | k in t ::
      if t[k].source == id && t[k].active && Slot(k.day, k.session) in gone then t[k].(active := false) else t[k]
  }

  function ApplyPlan(t: Table, p: Plan, id: SourceId, now: nat): Table {
    Retire(UpsertAll(t, p.changed, id, now), id, p.retire)
  }

  /** The table after a publish computed from the current rows. */
  function NewTable(t: Table, scan: Scan, id: SourceId, now: nat): Table {
    Retire(UpsertAll(t, Changed(RowsOf(t, id), scan.draws), id, now), id, Gone(RowsOf(t, id), scan))
  }

  lemma {:induction false} UpsertAllRows(t: Table, ds: seq<ParsedDraw>, id: SourceId, now: nat)
    ensures var u := UpsertAll(t, ds, id, now);
      && u.Keys == t.Keys + Keys(ds)
      && (forall k :: k in t && k !in Keys(ds) ==> u[k] == t[k])
      && (forall k :: k in ByKey(ds) ==> ByKey(ds)[k].key == k && u[k] == WrittenRow(t, ByKey(ds)[k], id, now))
  {
    if ds != [] {
      UpsertAllRows(t, ds[..|ds| - 1], id, now);
    }
  }

  predicate RetiredSlot(p: Plan, k: Key) {
    Slot(k.day, k.session) in p.retire
  }

  /** The row of a written draw: its new content, active unless retired, first seen when its key was
      first written. */
  predicate DrawWritten(t: Table, u: Table, p: Plan, id: SourceId, now: nat, d: ParsedDraw) {
    && d.key in u
    && u[d.key].content == d.content && u[d.key].fingerprint == d.fingerprint && u[d.key].source == id
    && u[d.key].active == !RetiredSlot(p, d.key)
    && u[d.key].firstSeen == if d.key in t then t[d.key].firstSeen else now
  }

  /** Any other row stays, or becomes inactive if it is the source's and in a retired slot. */
  predicate RowLeft(t: Table, u: Table, p: Plan, id: SourceId, k: Key)
    requires k in t
  {
    k in u && u[k] == t[k].(active := t[k].active && !(t[k].source == id && RetiredSlot(p, k)))
  }

  /** Row by row, the table `u` that a plan leaves of `t`. */
  ghost predicate WrittenAsPlanned(t: Table, u: Table, p: Plan, id: SourceId, now: nat) {
    && u.Keys == t.Keys + Keys(p.changed)
    && (forall d :: d in p.changed ==> DrawWritten(t, u, p, id, now, d))
    && (forall k :: k in t && k !in Keys(p.changed) ==> RowLeft(t, u, p, id, k))
  }

  lemma PlanWritesDraw(t: Table, p: Plan, id: SourceId, now: nat, d: ParsedDraw)
    requires DistinctKeys(p.changed) && d in p.changed
    ensures DrawWritten(t, ApplyPlan(t, p, id, now), p, id, now, d)
  {
    UpsertAllRows(t, p.changed, id, now);
    DistinctDraw(p.changed, d);
  }

  lemma PlanLeavesRow(t: Table, p: Plan, id: SourceId, now: nat, k: Key)
    requires k in t && k !in Keys(p.changed)
    ensures RowLeft(t, ApplyPlan(t, p, id, now), p, id, k)
  {
    UpsertAllRows(t, p.changed, id, now);
  }

  lemma ApplyPlanWrites(t: Table, p: Plan, id: SourceId, now: nat)
    requires DistinctKeys(p.changed)
    ensures WrittenAsPlanned(t, ApplyPlan(t, p, id, now), p, id, now)
  {
    UpsertAllRows(t, p.changed, id, now);
    forall d | d in p.changed ensures DrawWritten(t, ApplyPlan(t, p, id, now), p, id, now, d) {
      PlanWritesDraw(t, p, id, now, d);
    }
    forall k | k in t && k !in Keys(p.changed) ensures RowLeft(t, ApplyPlan(t, p, id, now), p, id, k) {
      PlanLeavesRow(t, p, id, now, k);
    }
  }

  lemma {:induction false} DistinctDraw(ds: seq<ParsedDraw>, d: ParsedDraw)
    requires DistinctKeys(ds) && d in ds
    ensures d.key in ByKey(ds) && ByKey(ds)[d.key] == d
  {
    var before, last := ds[..|ds| - 1], ds[|ds| - 1];
    if d != last {
      DistinctDraw(before, d);
    }
  }

  lemma {:induction false} UpsertInTwoParts(t: Table, a: seq<ParsedDraw>, b: seq<ParsedDraw>, id: SourceId, now: nat)
    ensures UpsertAll(t, a + b, id, now) == UpsertAll(UpsertAll(t, a, id, now), b, id, now)
  {
    if b == [] {
      assert a + b == a;
    } else {
      assert (a + b)[..|a + b| - 1] == a + b[..|b| - 1];
      UpsertInTwoParts(t, a, b[..|b| - 1], id, now);
    }
  }

  /** The changed draws are exactly the parsed draws that need a write. */
  lemma {:induction false} ChangedRows(existing: Table, draws: seq<ParsedDraw>)
    requires DistinctKeys(draws)
    ensures forall k :: k in ByKey(Changed(existing, draws)) ==>
      k in ByKey(draws) && ByKey(Changed(existing, draws))[k] == ByKey(draws)[k]
    ensures forall k :: k in ByKey(draws) ==>
      (k in ByKey(Changed(existing, draws)) <==> NeedsWrite(existing, ByKey(draws)[k]))
  {
    if draws != [] {
      var before, last := draws[..|draws| - 1], draws[|draws| - 1];
      ChangedRows(existing, before);
      ChangedStep(existing, draws);
    }
  }

  lemma ChangedStep(existing: Table, draws: seq<ParsedDraw>)
    requires draws != []
    ensures var prior, last := ByKey(Changed(existing, draws[..|draws| - 1])), draws[|draws| - 1];
      ByKey(Changed(existing, draws)) == if NeedsWrite(existing, last) then prior[last.key := last] else prior
  {
    var prior, last := Changed(existing, draws[..|draws| - 1]), draws[|draws| - 1];
    assert (prior + [last])[..|prior|] == prior && prior + [] == prior;
  }

  /** What the file replaces the active set by: itself, or itself over the prior set when
      lines were quarantined. */
  function Replacement(existing: Table, scan: Scan): map<Key, Content> {
    if scan.issues == [] then ParsedContent(scan.draws)
    else ActiveContent(existing) + ParsedContent(scan.draws)
  }

  lemma {:induction false} DaysAreKeys(draws: seq<ParsedDraw>, src: Source, k: Key)
    requires KeysOf(draws, src) && k == KeyOf(src, k.day)
    ensures k.day in Days(draws) <==> k in Keys(draws)
  {
    if draws != [] {
      DaysAreKeys(draws[..|draws| - 1], src, k);
    }
  }

  /** The rows of one source, as the worker reads them. */
  ghost predicate OwnRows(existing: Table, src: Source) {
    forall k :: k in existing ==> k == KeyOf(src, k.day)
  }

  /** Within one source, comparing dates finds exactly the keys the file leaves out. */
  lemma MissingIsUnmentioned(existing: Table, draws: seq<ParsedDraw>, src: Source)
    requires KeysOf(draws, src) && OwnRows(existing, src)
    ensures Missing(existing, draws) == ActiveKeys(existing) - Keys(draws)
  {
    forall k | k in existing ensures k.day in Days(draws) <==> k in Keys(draws) {
      DaysAreKeys(draws, src, k);
    }
  }

  /** Within one source, naming date and session names one row. */
  lemma SlotNamesOneRow(keys: set<Key>, src: Source, k: Key)
    requires k == KeyOf(src, k.day) && forall g :: g in keys ==> g == KeyOf(src, g.day)
    ensures Slot(k.day, k.session) in Slots(keys) <==> k in keys
  {
  }

  ghost predicate Publishable(t: Table, scan: Scan, src: Source) {
    OwnsItsKeys(t, src) && DistinctKeys(scan.draws) && KeysOf(scan.draws, src) && Telling(t, scan.draws)
  }

  lemma ForeignRowAfter(t: Table, scan: Scan, src: Source, now: nat, k: Key)
    requires Publishable(t, scan, src) && k in t && t[k].source != src.id
    ensures var u := NewTable(t, scan, src.id, now); k in u && u[k] == t[k]
  {
    var changed := Changed(RowsOf(t, src.id), scan.draws);
    UpsertAllRows(t, changed, src.id, now);
    ChangedRows(RowsOf(t, src.id), scan.draws);
    ByKeyMembers(scan.draws);
    assert k !in Keys(scan.draws);
    assert k !in Keys(changed);
  }

  lemma ParsedRowAfter(t: Table, scan: Scan, src: Source, now: nat, k: Key)
    requires Publishable(t, scan, src) && k in ByKey(scan.draws)
    ensures var u := NewTable(t, scan, src.id, now);
      && ByKey(scan.draws)[k].key == k == KeyOf(src, k.day)
      && k in u && u[k] == WrittenRow(t, ByKey(scan.draws)[k], src.id, now)
  {
    var existing := RowsOf(t, src.id);
    ByKeyMembers(scan.draws);
    UpsertAllRows(t, Changed(existing, scan.draws), src.id, now);
    ChangedRows(existing, scan.draws);
    MissingIsUnmentioned(existing, scan.draws, src);
    SlotNamesOneRow(Missing(existing, scan.draws), src, k);
  }

  lemma UnparsedRowAfter(t: Table, scan: Scan, src: Source, now: nat, k: Key)
    requires Publishable(t, scan, src) && k in t && t[k].source == src.id && k !in Keys(scan.draws)
    ensures var u := NewTable(t, scan, src.id, now);
      k in u && u[k] == t[k].(active := t[k].active && scan.issues != [])
  {
    var existing := RowsOf(t, src.id);
    var changed := Changed(existing, scan.draws);
    UpsertAllRows(t, changed, src.id, now);
    ChangedRows(existing, scan.draws);
    MissingIsUnmentioned(existing, scan.draws, src);
    SlotNamesOneRow(Missing(existing, scan.draws), src, k);
    assert k !in Keys(changed);
  }

  lemma ActiveAfter(t: Table, scan: Scan, src: Source, now: nat, k: Key)
    requires Publishable(t, scan, src)
    ensures var active := ActiveContent(RowsOf(NewTable(t, scan, src.id, now), src.id));
      var wanted := Replacement(RowsOf(t, src.id), scan);
      (k in active <==> k in wanted) && (k in active ==> active[k] == wanted[k])
  {
    RowsAfter(t, scan, src, now);
    if k in ByKey(scan.draws) {
      ParsedRowAfter(t, scan, src, now, k);
    } else if k in t {
      if t[k].source == src.id {
        UnparsedRowAfter(t, scan, src, now, k);
      } else {
        ForeignRowAfter(t, scan, src, now, k);
      }
    }
  }

  /** The incremental diff refines wholesale replacement: the source's active content becomes
      exactly the replacement, and no other source's row changes. */
  lemma PublishIsReplacement(t: Table, scan: Scan, src: Source, now: nat)
    requires Publishable(t, scan, src)
    ensures ActiveContent(RowsOf(NewTable(t, scan, src.id, now), src.id)) == Replacement(RowsOf(t, src.id), scan)
    ensures forall id :: id != src.id ==> RowsOf(NewTable(t, scan, src.id, now), id) == RowsOf(t, id)
  {
    var active := ActiveContent(RowsOf(NewTable(t, scan, src.id, now), src.id));
    var wanted := Replacement(RowsOf(t, src.id), scan);
    assert active == wanted by {
      forall k: Key ensures (k in active <==> k in wanted) && (k in active ==> active[k] == wanted[k]) {
        ActiveAfter(t, scan, src, now, k);
      }
    }
    forall id | id != src.id ensures RowsOf(NewTable(t, scan, src.id, now), id) == RowsOf(t, id) {
      OthersUntouched(t, scan, src, now, id);
    }
  }

  lemma OthersUntouched(t: Table, scan: Scan, src: Source, now: nat, id: SourceId)
    requires Publishable(t, scan, src) && id != src.id
    ensures RowsOf(NewTable(t, scan, src.id, now), id) == RowsOf(t, id)
  {
    RowsAfter(t, scan, src, now);
    var u := NewTable(t, scan, src.id, now);
    forall k | k in u ensures u[k].source == id <==> k in t && t[k].source == id {
      if k in ByKey(scan.draws) {
        ParsedRowAfter(t, scan, src, now, k);
      }
    }
  }

  /** A publish keeps every row, its owner and its first-seen time; a row it adds is first seen now. */
  lemma RowsAfter(t: Table, scan: Scan, src: Source, now: nat)
    requires Publishable(t, scan, src)
    ensures var u := NewTable(t, scan, src.id, now);
      && u.Keys == t.Keys + Keys(scan.draws)
      && OwnsItsKeys(u, src)
      && (forall k :: k in t ==> u[k].firstSeen == t[k].firstSeen && u[k].source == t[k].source)
      && (forall k :: k in t && t[k].source != src.id ==> u[k] == t[k])
      && (forall k :: k in Keys(scan.draws) && k !in t ==> u[k].firstSeen == now)
  {
    var u := NewTable(t, scan, src.id, now);
    UpsertAllRows(t, Changed(RowsOf(t, src.id), scan.draws), src.id, now);
    ChangedRows(RowsOf(t, src.id), scan.draws);
    forall k | k in t || k in Keys(scan.draws)
      ensures k in u && (u[k].source == src.id <==> k == KeyOf(src, k.day))
      ensures k in t ==> u[k].firstSeen == t[k].firstSeen && u[k].source == t[k].source
      ensures k in t && t[k].source != src.id ==> u[k] == t[k]
      ensures k !in t ==> u[k].firstSeen == now
    {
      if k in Keys(scan.draws) {
        ParsedRowAfter(t, scan, src, now, k);
      } else if t[k].source == src.id {
        UnparsedRowAfter(t, scan, src, now, k);
      } else {
        ForeignRowAfter(t, scan, src, now, k);
      }
    }
  }

  lemma ActiveKeysAfter(t: Table, scan: Scan, src: Source, now: nat)
    requires Publishable(t, scan, src)
    ensures ActiveKeys(RowsOf(NewTable(t, scan, src.id, now), src.id))
      == Keys(scan.draws) + (if scan.issues == [] then {} else ActiveKeys(RowsOf(t, src.id)))
  {
    var after := RowsOf(NewTable(t, scan, src.id, now), src.id);
    PublishIsReplacement(t, scan, src, now);
    assert ActiveKeys(after) == ActiveContent(after).Keys;
    ReplacementKeys(RowsOf(t, src.id), scan);
  }

  /** One publish drops at most max(4, active/200) active draws, and never moves the latest
      date back. */
  lemma PublishDropsFew(t: Table, scan: Scan, src: Source, now: nat)
    requires Publishable(t, scan, src) && GuardPasses(RowsOf(t, src.id), scan.draws)
    ensures var before := ActiveKeys(RowsOf(t, src.id));
      var after := ActiveKeys(RowsOf(NewTable(t, scan, src.id, now), src.id));
      LatestDay(before) <= LatestDay(after) && !TooMany(|before - after|, |before|)
  {
    ActiveKeysAfter(t, scan, src, now);
    MissingIsUnmentioned(RowsOf(t, src.id), scan.draws, src);
    DropsFew(ActiveKeys(RowsOf(t, src.id)), Keys(scan.draws), scan.issues == []);
  }

  lemma PlanMovesForward(t: Table, scan: Scan, src: Source, now: nat)
    requires Publishable(t, scan, src) && GuardPasses(RowsOf(t, src.id), scan.draws) && scan.draws != []
    ensures var p := PlanFor(RowsOf(t, src.id), scan);
      p.activeCount > 0 && LatestDay(ActiveKeys(RowsOf(t, src.id))) <= p.latest
  {
    PublishDropsFew(t, scan, src, now);
    PlanCountsActiveSet(t, scan, src, now);
    ActiveKeysAfter(t, scan, src, now);
    assert scan.draws[|scan.draws| - 1].key in Keys(scan.draws);
  }

  lemma DropsFew(before: set<Key>, keys: set<Key>, clean: bool)
    requires Tolerable(before, keys, |before - keys|)
    ensures var after := keys + (if clean then {} else before);
      LatestDay(before) <= LatestDay(after) && |before - after| <= AllowedMissing(|before|)
  {
    var after := keys + (if clean then {} else before);
    LatestOfUnion(keys, if clean then {} else before);
    if clean {
      assert before - after == before - keys;
    } else {
      assert before - after == {};
    }
    if before == {} {
      assert before - after == {};
    }
  }

  /** The count and the latest date computed from the counters describe the new active set. */
  lemma PlanCountsActiveSet(t: Table, scan: Scan, src: Source, now: nat)
    requires Publishable(t, scan, src)
    ensures var p := PlanFor(RowsOf(t, src.id), scan);
      var active := ActiveKeys(RowsOf(NewTable(t, scan, src.id, now), src.id));
      p.activeCount == |active| && p.latest == LatestDay(active)
  {
    PublishIsReplacement(t, scan, src, now);
    var existing := RowsOf(t, src.id);
    var after := RowsOf(NewTable(t, scan, src.id, now), src.id);
    assert ActiveKeys(after) == ActiveContent(after).Keys;
    ReplacementKeys(existing, scan);
    if scan.issues == [] {
      DistinctCount(scan.draws);
    } else {
      OverlayCount(existing, scan.draws);
      LatestOfUnion(Keys(scan.draws), ActiveKeys(existing));
    }
  }

  lemma ReplacementKeys(existing: Table, scan: Scan)
    ensures Replacement(existing, scan).Keys
      == Keys(scan.draws) + (if scan.issues == [] then {} else ActiveKeys(existing))
  {
    assert ActiveContent(existing).Keys == ActiveKeys(existing);
    assert ParsedContent(scan.draws).Keys == Keys(scan.draws);
  }

  /** Inserted and reactivated draws are exactly what the file adds to the active set. */
  lemma {:induction false} OverlayCount(existing: Table, draws: seq<ParsedDraw>)
    requires DistinctKeys(draws)
    ensures |Keys(draws) + ActiveKeys(existing)|
      == |ActiveKeys(existing)| + Tally(existing, draws).inserted + Tally(existing, draws).reactivated
  {
    var active := ActiveKeys(existing);
    if draws == [] {
      assert Keys(draws) + active == active;
    } else {
      var before, last := draws[..|draws| - 1], draws[|draws| - 1];
      OverlayCount(existing, before);
      assert Keys(draws) == Keys(before) + {last.key};
      AddOne(Keys(before), active, last.key);
      var c, d := Tally(existing, draws), Tally(existing, before);
      assert c.inserted + c.reactivated == d.inserted + d.reactivated + (if last.key in active then 0 else 1);
    }
  }

  lemma AddOne(keys: set<Key>, active: set<Key>, k: Key)
    requires k !in keys
    ensures |keys + {k} + active| == |keys + active| + (if k in active then 0 else 1)
  {
    if k in active {
      assert keys + {k} + active == keys + active;
    } else {
      assert keys + {k} + active == keys + active + {k};
    }
  }

  lemma {:induction false} DistinctCount(draws: seq<ParsedDraw>)
    requires DistinctKeys(draws)
    ensures |Keys(draws)| == |draws|
  {
    if draws != [] {
      var before := draws[..|draws| - 1];
      DistinctCount(before);
    }
  }

  // ---- publishing the same scan again ----

  /** Every parsed draw is already stored, active, with the parsed fingerprint. */
  ghost predicate Shown(existing: Table, draws: seq<ParsedDraw>) {
    forall k :: k in ByKey(draws) ==>
      k in existing && existing[k].active && existing[k].fingerprint == ByKey(draws)[k].fingerprint
  }

  lemma {:induction false} ShownNeedsNoWrite(existing: Table, draws: seq<ParsedDraw>)
    requires DistinctKeys(draws) && Shown(existing, draws)
    ensures Changed(existing, draws) == []
    ensures Tally(existing, draws) == Counts(0, 0, |draws|, 0)
  {
    if draws != [] {
      var before, last := draws[..|draws| - 1], draws[|draws| - 1];
      forall k | k in ByKey(before) ensures ByKey(before)[k] == ByKey(draws)[k] {
      }
      ShownNeedsNoWrite(existing, before);
      assert ByKey(draws)[last.key] == last;
    }
  }

  /** What a publish of `scan` leaves behind: its draws shown, nothing else active unless
      lines were quarantined, and the guard still passing for the same draws. */
  ghost predicate Settled(existing: Table, scan: Scan) {
    && Shown(existing, scan.draws)
    && (scan.issues == [] ==> ActiveKeys(existing) == Keys(scan.draws))
    && GuardPasses(existing, scan.draws)
  }

  lemma PublishSettles(t: Table, scan: Scan, src: Source, now: nat)
    requires Publishable(t, scan, src) && GuardPasses(RowsOf(t, src.id), scan.draws)
    ensures Settled(RowsOf(NewTable(t, scan, src.id, now), src.id), scan)
  {
    PublishShows(t, scan, src, now);
    PublishActivates(t, scan, src, now);
    PublishKeepsGuard(t, scan, src, now);
  }

  lemma PublishActivates(t: Table, scan: Scan, src: Source, now: nat)
    requires Publishable(t, scan, src)
    ensures scan.issues == [] ==> ActiveKeys(RowsOf(NewTable(t, scan, src.id, now), src.id)) == Keys(scan.draws)
  {
    ActiveKeysAfter(t, scan, src, now);
  }

  lemma PublishKeepsGuard(t: Table, scan: Scan, src: Source, now: nat)
    requires Publishable(t, scan, src) && GuardPasses(RowsOf(t, src.id), scan.draws)
    ensures GuardPasses(RowsOf(NewTable(t, scan, src.id, now), src.id), scan.draws)
  {
    ActiveKeysAfter(t, scan, src, now);
    RowsAfter(t, scan, src, now);
    GuardStillPasses(RowsOf(t, src.id), RowsOf(NewTable(t, scan, src.id, now), src.id), scan, src);
  }

  lemma PublishShows(t: Table, scan: Scan, src: Source, now: nat)
    requires Publishable(t, scan, src)
    ensures Shown(RowsOf(NewTable(t, scan, src.id, now), src.id), scan.draws)
  {
    var after := RowsOf(NewTable(t, scan, src.id, now), src.id);
    forall k | k in ByKey(scan.draws)
      ensures k in after && after[k].active && after[k].fingerprint == ByKey(scan.draws)[k].fingerprint
    {
      ParsedRowAfter(t, scan, src, now, k);
    }
  }

  lemma GuardStillPasses(existing: Table, after: Table, scan: Scan, src: Source)
    requires KeysOf(scan.draws, src) && OwnRows(existing, src) && OwnRows(after, src)
    requires GuardPasses(existing, scan.draws)
    requires ActiveKeys(after) == Keys(scan.draws) + (if scan.issues == [] then {} else ActiveKeys(existing))
    ensures GuardPasses(after, scan.draws)
  {
    var keys, active := Keys(scan.draws), ActiveKeys(existing);
    MissingIsUnmentioned(existing, scan.draws, src);
    MissingIsUnmentioned(after, scan.draws, src);
    if scan.issues == [] {
      assert ActiveKeys(after) == keys && Missing(after, scan.draws) == {};
    } else {
      assert Missing(after, scan.draws) == Missing(existing, scan.draws);
      OverlayTolerable(active, keys, |Missing(existing, scan.draws)|);
    }
  }

  lemma OverlayTolerable(active: set<Key>, keys: set<Key>, missing: nat)
    requires Tolerable(active, keys, missing) && (active == {} ==> missing == 0)
    ensures Tolerable(keys + active, keys, missing)
  {
    LatestOfUnion(keys, active);
    UnionIsNoSmaller(keys, active);
  }

  lemma UnionIsNoSmaller(a: set<Key>, b: set<Key>)
    ensures |b| <= |a + b|
  {
    assert a + b == b + (a - b);
  }

  /** Diffing a settled source against the same scan again writes nothing, retires nothing
      and recomputes the count and latest date the source already has. */
  lemma ReplayIsNoOp(existing: Table, scan: Scan, src: Source)
    requires DistinctKeys(scan.draws) && KeysOf(scan.draws, src) && OwnRows(existing, src)
    requires Settled(existing, scan)
    ensures var p := PlanFor(existing, scan);
      && p.changed == [] && p.retire == {} && p.retired == 0
      && p.activeCount == |ActiveKeys(existing)| && p.latest == LatestDay(ActiveKeys(existing))
  {
    ShownNeedsNoWrite(existing, scan.draws);
    MissingIsUnmentioned(existing, scan.draws, src);
    if scan.issues == [] {
      assert Missing(existing, scan.draws) == {};
      DistinctCount(scan.draws);
    } else {
      assert Keys(scan.draws) + ActiveKeys(existing) == ActiveKeys(existing);
      LatestOfUnion(Keys(scan.draws), ActiveKeys(existing));
    }
  }

  /** A draw the table does not hold makes the diff write. */
  lemma {:induction false} UnknownKeyIsWritten(existing: Table, draws: seq<ParsedDraw>, k: Key)
    requires k in ByKey(draws) && k !in ActiveKeys(existing)
    ensures Changed(existing, draws) != []
  {
    var before, last := draws[..|draws| - 1], draws[|draws| - 1];
    if last.key != k {
      UnknownKeyIsWritten(existing, before, k);
    }
  }
}
