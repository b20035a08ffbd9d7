/**
 * The Ticket Lab evidence machine: ledgers, their append-only eligibility events, official draws
 * and ledger grades, changed by any number of creators, reconcilers, manual decisions, ingesting
 * workers and graders. The latest event of a ledger says whether it counts.
 */
module Eligibility {
  import opened Csv
  import opened Draws

  // ---- the sales window ----

  /** Texas wall-clock time: the day and the minutes since local midnight. */
  datatype Clock = Clock(day: Day, minute: nat)

  /** An instant, with what the Texas clock shows then. */
  datatype Moment = Moment(at: int, texas: Clock)

  predicate Intraday(game: Game) {
    game in {Pick3, Daily4, AllOrNothing}
  }

  /** Minutes after local midnight; none when the game has no such session. */
  function TicketSalesCutoffMinutes(game: Game, session: Session): Option<nat> {
    if Intraday(game) then IntradayCutoff(session)
    else if session != NoSession then None
    else Some(PoolCutoff(game))
  }

  function PoolCutoff(game: Game): nat {
    if game == Powerball then 21 * 60 else if game == MegaMillions then 21 * 60 + 45 else 22 * 60 + 2
  }

  function IntradayCutoff(session: Session): Option<nat> {
    match session
    case NoSession => None
    case Morning => Some(9 * 60 + 50)
    case Midday => Some(12 * 60 + 17)
    case Evening => Some(17 * 60 + 50)
    case Night => Some(22 * 60 + 2)
  }

  /** Sunday is 0; day numbers divisible by seven are Sundays. */
  function Weekday(day: Day): nat {
    day % 7
  }

  predicate OfficialWeekday(game: Game, weekday: nat) {
    match game
    case Lotto => weekday in {1, 3, 6}
    case TwoStep => weekday in {1, 4}
    case Powerball => weekday in {1, 3, 6}
    case MegaMillions => weekday in {2, 5}
    case _ => weekday != 0
  }

  datatype Window = Window(isDrawDay: bool, beforeCutoff: bool)

  /** None when the game and session do not go together. */
  function TicketSalesWindow(key: Key, now: Moment): Option<Window> {
    var cutoff := TicketSalesCutoffMinutes(key.game, key.session);
    if cutoff.None? then None
    else
      var official := OfficialWeekday(key.game, Weekday(key.day));
      Some(Window(official,
                  official && (key.day > now.texas.day
                               || (key.day == now.texas.day && now.texas.minute < cutoff.value))))
  }

  /** Minutes on the Texas clock since its first midnight. */
  function Minutes(c: Clock): nat {
    c.day * 1440 + c.minute
  }

  /** There is a window exactly when an intraday game names a session and another game none; sales
      are open exactly while the clock is before the cutoff of an official draw day. */
  lemma WindowExactly(key: Key, now: Moment)
    requires now.texas.minute < 1440
    ensures var w := TicketSalesWindow(key, now);
      && (w.Some? <==> (Intraday(key.game) <==> key.session != NoSession))
      && (w.Some? ==>
            && (w.value.isDrawDay <==> OfficialWeekday(key.game, key.day % 7))
            && var cutoff := Clock(key.day, TicketSalesCutoffMinutes(key.game, key.session).value);
               w.value.beforeCutoff <==> w.value.isDrawDay && Minutes(now.texas) < Minutes(cutoff))
  {
    assert key.day > now.texas.day ==> key.day * 1440 >= now.texas.day * 1440 + 1440;
    assert key.day < now.texas.day ==> now.texas.day * 1440 >= key.day * 1440 + 1440;
  }

  /** Sales of the sessions end one after the other; the last session and the Texas pool games end
      together, after Powerball and then Mega Millions. */
  lemma CutoffsInOrder(game: Game)
    requires !Intraday(game) && game != Powerball && game != MegaMillions
    ensures IntradayCutoff(Morning).value < IntradayCutoff(Midday).value < IntradayCutoff(Evening).value
    ensures IntradayCutoff(Evening).value < PoolCutoff(Powerball) < PoolCutoff(MegaMillions) < PoolCutoff(game)
    ensures PoolCutoff(game) == IntradayCutoff(Night).value < 1440
  {
  }

  /** Nothing is drawn on Sundays. On every other day the daily games are drawn and one of the pool
      games; Lotto on the days of Powerball, and Mega Millions on other days. */
  lemma DrawDays(weekday: nat)
    requires weekday < 7
    ensures OfficialWeekday(Lotto, weekday) == OfficialWeekday(Powerball, weekday)
    ensures OfficialWeekday(MegaMillions, weekday) ==> !OfficialWeekday(Powerball, weekday)
    ensures weekday != 0 <==> OfficialWeekday(Cash5, weekday)
    ensures OfficialWeekday(Cash5, weekday) == OfficialWeekday(Pick3, weekday) == OfficialWeekday(Daily4, weekday)
    ensures OfficialWeekday(Cash5, weekday) == OfficialWeekday(AllOrNothing, weekday)
    ensures weekday != 0 <==>
      OfficialWeekday(MegaMillions, weekday) || OfficialWeekday(Powerball, weekday) || OfficialWeekday(TwoStep, weekday)
  {
  }

  // ---- tables ----

  type LedgerId = nat

  datatype Ledger = Ledger(key: Key, proposed: Moment, random: bool)

  /** The proposal was made before the sales cutoff of an official draw day. */
  predicate InWindow(l: Ledger) {
    var w := TicketSalesWindow(l.key, l.proposed);
    w.Some? && w.value.isDrawDay && w.value.beforeCutoff
  }

  datatype Reason =
    | SchemaV7Attestation | PreDrawCapture | RandomBaseline
    | ResultNotAfterProposal | NotBeforeCutoff
    | ManualExclusion | ManualReinstatement

  /** Event ids: one of a kind per ledger, or the digest of ledger and caller's key. */
  datatype EventId =
    | AttestId(of: LedgerId) | CutoffId(of: LedgerId) | ExcludeId(of: LedgerId) | EvaluatedId(of: LedgerId)
    | ManualId(of: LedgerId, text: string)

  datatype Event = Event(id: EventId, ledger: LedgerId, key: string, eligible: bool, reason: Reason)

  const CREATION_KEY := "creation-attestation-v1"
  const INITIAL_KEY := "schema-v7-initial-attestation"
  const EVALUATION_KEY := "schema-v7-cutoff-evaluation-v1"
  const EXCLUSION_KEY := "official-result-not-after-proposal-v1"

  /** The unique indexes: event id, and ledger with idempotency key. */
  predicate Clashes(e: Event, f: Event) {
    e.id == f.id || (e.ledger == f.ledger && e.key == f.key)
  }

  predicate Taken(events: seq<Event>, e: Event) {
    events != [] && (Clashes(events[|events| - 1], e) || Taken(events[..|events| - 1], e))
  }

  /** Insert or ignore. */
  function Append(events: seq<Event>, e: Event): seq<Event> {
    if Taken(events, e) then events else events + [e]
  }

  function Latest(events: seq<Event>, l: LedgerId): Option<Event> {
    if events == [] then None
    else if events[|events| - 1].ledger == l then Some(events[|events| - 1])
    else Latest(events[..|events| - 1], l)
  }

  /** The highest event sequence number of a ledger, zero when it has no event. */
  function LatestSequence(events: seq<Event>, l: LedgerId): nat {
    if events == [] then 0
    else if events[|events| - 1].ledger == l then |events|
    else LatestSequence(events[..|events| - 1], l)
  }

  /** An event that makes its ledger count; the neutral attestation does not. */
  predicate Grants(e: Event) {
    e.eligible && !e.reason.SchemaV7Attestation?
  }

  predicate Counts(events: seq<Event>, l: LedgerId) {
    Latest(events, l).Some? && Grants(Latest(events, l).value)
  }

  datatype Draw = Draw(firstSeen: int, fingerprint: string, active: bool)

  /** A grade's id is the digest of its ledger and fingerprint, so `supersedes` names the
      superseded grade by fingerprint. */
  datatype Grade = Grade(ledger: LedgerId, revision: nat, supersedes: Option<string>, fingerprint: string)

  function LatestGrade(grades: seq<Grade>, l: LedgerId): Option<Grade> {
    if grades == [] then None
    else if grades[|grades| - 1].ledger == l then Some(grades[|grades| - 1])
    else LatestGrade(grades[..|grades| - 1], l)
  }

  function GradeCount(grades: seq<Grade>, l: LedgerId): nat {
    if grades == [] then 0
    else GradeCount(grades[..|grades| - 1], l) + if grades[|grades| - 1].ledger == l then 1 else 0
  }

  /** Unique per ledger: the revision, and the fingerprint (which also fixes the grade id). */
  predicate GradeTaken(grades: seq<Grade>, g: Grade) {
    grades != [] &&
    (var last := grades[|grades| - 1];
     (last.ledger == g.ledger && (last.revision == g.revision || last.fingerprint == g.fingerprint))
     || GradeTaken(grades[..|grades| - 1], g))
  }

  // ---- workers ----

  /** An operation between its reads and its write. */
  datatype Op =
    | Deciding(ledger: LedgerId, key: string, eligible: bool)
    | Evaluating(ledger: LedgerId, seen: nat)
    | Selected(ledger: LedgerId, fingerprint: string)
    | Grading(ledger: LedgerId, fingerprint: string, prior: Option<Grade>)

  datatype State = State(ledgers: map<LedgerId, Ledger>, events: seq<Event>, draws: map<Key, Draw>,
                         grades: seq<Grade>, ops: map<nat, Op>)

  datatype Action =
    | Create(l: LedgerId, ledger: Ledger)
    | Ingest(key: Key, seen: int, fingerprint: string)
    | Retire(key: Key)
    | Attest(l: LedgerId)
    | Exclude(l: LedgerId)
    | ReadNeutral(who: nat, l: LedgerId)
    | CommitEvaluation(who: nat)
    | CheckDecision(who: nat, l: LedgerId, text: string, eligible: bool)
    | CommitDecision(who: nat)
    | SelectGrade(who: nat, l: LedgerId)
    | ReadPrior(who: nat)
    | CommitGrade(who: nat)

  /** An official result was already present when the ledger was proposed. */
  predicate Violates(s: State, l: Ledger) {
    l.key in s.draws && s.draws[l.key].firstSeen <= l.proposed.at
  }

  function CaptureReason(l: Ledger): Reason {
    if !InWindow(l) then NotBeforeCutoff else if l.random then RandomBaseline else PreDrawCapture
  }

  function CreationEvent(l: LedgerId, ledger: Ledger): Event {
    Event(if InWindow(ledger) then AttestId(l) else CutoffId(l), l, CREATION_KEY, InWindow(ledger),
          CaptureReason(ledger))
  }

  function ExclusionEvent(l: LedgerId): Event {
    Event(ExcludeId(l), l, EXCLUSION_KEY, false, ResultNotAfterProposal)
  }

  function AttestationEvent(l: LedgerId): Event {
    Event(AttestId(l), l, INITIAL_KEY, true, SchemaV7Attestation)
  }

  function EvaluationEvent(l: LedgerId, ledger: Ledger): Event {
    Event(if InWindow(ledger) then EvaluatedId(l) else CutoffId(l), l, EVALUATION_KEY, InWindow(ledger),
          CaptureReason(ledger))
  }

  function DecisionEvent(l: LedgerId, key: string, eligible: bool): Event {
    Event(ManualId(l, key), l, key, eligible, if eligible then ManualReinstatement else ManualExclusion)
  }

  /** The creation batch: the ledger row, its attestation, and the exclusion when it violates. */
  function Created(s: State, l: LedgerId, ledger: Ledger): State {
    var ledgers := if l in s.ledgers then s.ledgers else s.ledgers[l := ledger];
    var attested := Append(s.events, CreationEvent(l, ledger));
    s.(ledgers := ledgers,
       events := if Violates(s, ledgers[l]) then Append(attested, ExclusionEvent(l)) else attested)
  }

  /** The latest event is eligible, or there is none. */
  predicate NotExcluded(events: seq<Event>, l: LedgerId) {
    Latest(events, l).Some? ==> Latest(events, l).value.eligible
  }

  predicate DecisionAllowed(s: State, l: LedgerId, key: string, eligible: bool) {
    && l in s.ledgers && |key| >= 8
    && (eligible ==> InWindow(s.ledgers[l]) && !Violates(s, s.ledgers[l]))
  }

  predicate Gradable(s: State, l: LedgerId) {
    && l in s.ledgers
    && var key := s.ledgers[l].key;
    && key in s.draws && s.draws[key].active && s.draws[key].firstSeen > s.ledgers[l].proposed.at
    && Counts(s.events, l)
    && var prior := LatestGrade(s.grades, l);
    && (prior.None? || prior.value.fingerprint != s.draws[key].fingerprint)
  }

  function NewGrade(op: Op): Grade
    requires op.Grading?
  {
    if op.prior.None? then Grade(op.ledger, 1, None, op.fingerprint)
    else Grade(op.ledger, op.prior.value.revision + 1, Some(op.prior.value.fingerprint), op.fingerprint)
  }

  predicate GradeCommits(s: State, op: Op) {
    op.Grading? && Counts(s.events, op.ledger) && !GradeTaken(s.grades, NewGrade(op))
  }

  function Done(s: State, who: nat): State {
    s.(ops := s.ops - {who})
  }

  function Next(s: State, a: Action): State {
    match a
    case Create(l, ledger) =>
      if TicketSalesWindow(ledger.key, ledger.proposed).None? then s else Created(s, l, ledger)
    case Ingest(key, seen, fingerprint) =>
      s.(draws := s.draws[key := Draw(if key in s.draws then s.draws[key].firstSeen else seen, fingerprint, true)])
    case Retire(key) =>
      if key in s.draws then s.(draws := s.draws[key := s.draws[key].(active := false)]) else s
    case Attest(l) =>
      if l in s.ledgers && Latest(s.events, l).None? then s.(events := Append(s.events, AttestationEvent(l))) else s
    case Exclude(l) =>
      if l in s.ledgers && Violates(s, s.ledgers[l]) && NotExcluded(s.events, l)
      then s.(events := Append(s.events, ExclusionEvent(l))) else s
    case ReadNeutral(who, l) =>
      if l in s.ledgers && Latest(s.events, l).Some? && Latest(s.events, l).value.reason.SchemaV7Attestation?
      then s.(ops := s.ops[who := Evaluating(l, LatestSequence(s.events, l))]) else s
    case CommitEvaluation(who) =>
      if who in s.ops && s.ops[who].Evaluating? && s.ops[who].ledger in s.ledgers
         && LatestSequence(s.events, s.ops[who].ledger) == s.ops[who].seen
      then
        var l := s.ops[who].ledger;
        Done(s.(events := Append(s.events, EvaluationEvent(l, s.ledgers[l]))), who)
      else Done(s, who)
    case CheckDecision(who, l, text, eligible) =>
      if DecisionAllowed(s, l, text, eligible) then s.(ops := s.ops[who := Deciding(l, text, eligible)]) else s
    case CommitDecision(who) =>
      if who in s.ops && s.ops[who].Deciding?
      then
        var op := s.ops[who];
        Done(s.(events := Append(s.events, DecisionEvent(op.ledger, op.key, op.eligible))), who)
      else Done(s, who)
    case SelectGrade(who, l) =>
      if Gradable(s, l) then s.(ops := s.ops[who := Selected(l, s.draws[s.ledgers[l].key].fingerprint)]) else s
    case ReadPrior(who) =>
      if who in s.ops && s.ops[who].Selected?
      then
        var op := s.ops[who];
        s.(ops := s.ops[who := Grading(op.ledger, op.fingerprint, LatestGrade(s.grades, op.ledger))])
      else s
    case CommitGrade(who) =>
      if who in s.ops && GradeCommits(s, s.ops[who])
      then Done(s.(grades := s.grades + [NewGrade(s.ops[who])]), who)
      else Done(s, who)
  }

  function Run(s: State, actions: seq<Action>): State {
    if actions == [] then s else Next(Run(s, actions[..|actions| - 1]), actions[|actions| - 1])
  }

  // ---- invariants ----

  /** An event names its own ledger, and grants only a proposal made in its sales window. */
  predicate EventSound(ledgers: map<LedgerId, Ledger>, e: Event) {
    && e.ledger in ledgers && e.id.of == e.ledger
    && (Grants(e) ==> InWindow(ledgers[e.ledger]))
  }

  ghost predicate EventsSound(s: State) {
    forall e :: e in s.events ==> EventSound(s.ledgers, e)
  }

  /** The ledger's first attestation is taken, so creating it again grants nothing. */
  predicate Started(events: seq<Event>, l: LedgerId) {
    Taken(events, Event(AttestId(l), l, CREATION_KEY, true, PreDrawCapture))
  }

  ghost predicate LedgersStarted(s: State) {
    forall l :: l in s.ledgers ==> Started(s.events, l)
  }

  /** What an operation knows stays true while it waits. */
  predicate OpSound(s: State, op: Op) {
    && op.ledger in s.ledgers
    && (op.Deciding? && op.eligible ==> InWindow(s.ledgers[op.ledger]))
    && (op.Selected? || op.Grading? ==>
          var l := s.ledgers[op.ledger];
          l.key in s.draws && s.draws[l.key].firstSeen > l.proposed.at)
    && (op.Grading? && op.prior.Some? ==> op.prior.value in s.grades && op.prior.value.ledger == op.ledger)
  }

  ghost predicate OpsSound(s: State) {
    forall who :: who in s.ops ==> OpSound(s, s.ops[who])
  }

  /** Every grade continues the chain of its ledger. */
  predicate Chained(grades: seq<Grade>) {
    grades != [] ==>
      var front, g := grades[..|grades| - 1], grades[|grades| - 1];
      && Chained(front)
      && g.revision == GradeCount(front, g.ledger) + 1
      && g.supersedes == FingerprintOf(LatestGrade(front, g.ledger))
      && !GradeTaken(front, g)
  }

  function FingerprintOf(g: Option<Grade>): Option<string> {
    if g.None? then None else Some(g.value.fingerprint)
  }

  ghost predicate Sound(s: State) {
    EventsSound(s) && LedgersStarted(s) && OpsSound(s) && Chained(s.grades)
  }

  // ---- event tables ----

  lemma TakenAppend(events: seq<Event>, f: Event, e: Event)
    ensures Taken(events + [f], e) <==> Clashes(f, e) || Taken(events, e)
  {
    assert (events + [f])[..|events|] == events;
  }

  lemma TakenStays(events: seq<Event>, f: Event, e: Event)
    requires Taken(events, e)
    ensures Taken(Append(events, f), e)
  {
    TakenAppend(events, f, e);
  }

  lemma LatestAppend(events: seq<Event>, e: Event, l: LedgerId)
    ensures Latest(events + [e], l) == if e.ledger == l then Some(e) else Latest(events, l)
    ensures LatestSequence(events + [e], l) == if e.ledger == l then |events| + 1 else LatestSequence(events, l)
  {
    assert (events + [e])[..|events|] == events;
  }

  lemma {:induction false} LatestIsIn(events: seq<Event>, l: LedgerId)
    ensures Latest(events, l).Some? ==> Latest(events, l).value in events && Latest(events, l).value.ledger == l
  {
    if events != [] {
      LatestIsIn(events[..|events| - 1], l);
    }
  }

  lemma {:induction false} TakenMeansIn(events: seq<Event>, e: Event) returns (f: Event)
    requires Taken(events, e)
    ensures f in events && Clashes(f, e)
  {
    f := events[|events| - 1];
    if !Clashes(f, e) {
      f := TakenMeansIn(events[..|events| - 1], e);
    }
  }

  /** Appending a sound event keeps the table sound and every taken key taken. */
  lemma AppendKeeps(s: State, e: Event, t: State)
    requires EventsSound(s) && LedgersStarted(s) && EventSound(s.ledgers, e)
    requires t.ledgers == s.ledgers && t.events == Append(s.events, e)
    ensures EventsSound(t) && LedgersStarted(t)
  {
    forall l | l in t.ledgers ensures Started(t.events, l) {
      TakenStays(s.events, e, Event(AttestId(l), l, CREATION_KEY, true, PreDrawCapture));
    }
  }

  // ---- grades ----

  /** A chain has every revision up to its length, the highest last. */
  lemma {:induction false} RevisionsAreTaken(grades: seq<Grade>, l: LedgerId, g: Grade)
    requires Chained(grades) && g.ledger == l && 1 <= g.revision <= GradeCount(grades, l)
    ensures GradeTaken(grades, g)
  {
    var front, last := grades[..|grades| - 1], grades[|grades| - 1];
    if !(last.ledger == l && last.revision == g.revision) {
      RevisionsAreTaken(front, l, g);
    }
  }

  lemma {:induction false} LatestGradeIsIn(grades: seq<Grade>, l: LedgerId)
    requires Chained(grades)
    ensures LatestGrade(grades, l).Some? <==> GradeCount(grades, l) > 0
    ensures LatestGrade(grades, l).Some? ==>
      var g := LatestGrade(grades, l).value;
      g in grades && g.ledger == l && g.revision == GradeCount(grades, l)
  {
    if grades != [] {
      LatestGradeIsIn(grades[..|grades| - 1], l);
    }
  }

  lemma {:induction false} RevisionWithinChain(grades: seq<Grade>, g: Grade)
    requires Chained(grades) && g in grades
    ensures 1 <= g.revision <= GradeCount(grades, g.ledger)
    ensures g.revision == GradeCount(grades, g.ledger) ==> LatestGrade(grades, g.ledger) == Some(g)
  {
    var front, last := grades[..|grades| - 1], grades[|grades| - 1];
    if g != last {
      assert grades == front + [last];
      RevisionWithinChain(front, g);
    }
  }

  /** A grade that commits extends its ledger's chain: nobody else graded it since the read. */
  lemma CommitExtendsChain(s: State, op: Op)
    requires Chained(s.grades) && OpSound(s, op) && GradeCommits(s, op)
    ensures Chained(s.grades + [NewGrade(op)])
    ensures op.prior == LatestGrade(s.grades, op.ledger)
  {
    var g, n := NewGrade(op), GradeCount(s.grades, op.ledger);
    if op.prior.Some? {
      RevisionWithinChain(s.grades, op.prior.value);
    }
    if g.revision <= n {
      RevisionsAreTaken(s.grades, op.ledger, g);
    }
    LatestGradeIsIn(s.grades, op.ledger);
    assert (s.grades + [g])[..|s.grades|] == s.grades;
  }

  // ---- every step ----

  /** Ledgers, first-seen times and grades are never changed or removed. */
  ghost predicate Grows(s: State, t: State) {
    && (forall l :: l in s.ledgers ==> l in t.ledgers && t.ledgers[l] == s.ledgers[l])
    && (forall key :: key in s.draws ==> key in t.draws && t.draws[key].firstSeen == s.draws[key].firstSeen)
    && |s.grades| <= |t.grades| && s.grades == t.grades[..|s.grades|]
  }

  lemma StepGrows(s: State, a: Action)
    ensures Grows(s, Next(s, a))
  {
  }

  /** The creation batch before its exclusion. */
  function Begun(s: State, l: LedgerId, ledger: Ledger): State {
    s.(ledgers := if l in s.ledgers then s.ledgers else s.ledgers[l := ledger],
       events := Append(s.events, CreationEvent(l, ledger)))
  }

  lemma RecreateKeepsEvents(s: State, l: LedgerId, ledger: Ledger)
    requires EventsSound(s) && LedgersStarted(s) && l in s.ledgers
    ensures EventsSound(Begun(s, l, ledger)) && LedgersStarted(Begun(s, l, ledger))
  {
    var e := CreationEvent(l, ledger);
    if InWindow(ledger) {
      SameClash(s.events, e, Event(AttestId(l), l, CREATION_KEY, true, PreDrawCapture));
    } else {
      AppendKeeps(s, e, Begun(s, l, ledger));
    }
  }

  lemma NewLedgerKeepsEvents(s: State, l: LedgerId, ledger: Ledger)
    requires EventsSound(s) && LedgersStarted(s) && l !in s.ledgers
    ensures EventsSound(Begun(s, l, ledger)) && LedgersStarted(Begun(s, l, ledger))
  {
    var e, u := CreationEvent(l, ledger), Begun(s, l, ledger);
    NewLedgerIsUntaken(s, e);
    forall k | k in u.ledgers ensures Started(u.events, k) {
      TakenAppend(s.events, e, Event(AttestId(k), k, CREATION_KEY, true, PreDrawCapture));
    }
  }

  lemma CreateKeepsEvents(s: State, l: LedgerId, ledger: Ledger)
    requires EventsSound(s) && LedgersStarted(s)
    ensures EventsSound(Created(s, l, ledger)) && LedgersStarted(Created(s, l, ledger))
  {
    var u := Begun(s, l, ledger);
    if l in s.ledgers {
      RecreateKeepsEvents(s, l, ledger);
    } else {
      NewLedgerKeepsEvents(s, l, ledger);
    }
    AppendKeeps(u, ExclusionEvent(l), u.(events := Append(u.events, ExclusionEvent(l))));
  }

  lemma {:induction false} SameClash(events: seq<Event>, e: Event, f: Event)
    requires e.id == f.id && e.ledger == f.ledger && e.key == f.key
    ensures Taken(events, e) == Taken(events, f)
  {
    if events != [] {
      SameClash(events[..|events| - 1], e, f);
    }
  }

  lemma NewLedgerIsUntaken(s: State, e: Event)
    requires EventsSound(s) && e.ledger !in s.ledgers && e.id.of == e.ledger
    ensures !Taken(s.events, e)
  {
    if Taken(s.events, e) {
      var f := TakenMeansIn(s.events, e);
    }
  }

  lemma StepKeepsEvents(s: State, a: Action)
    requires EventsSound(s) && LedgersStarted(s) && OpsSound(s)
    ensures EventsSound(Next(s, a)) && LedgersStarted(Next(s, a))
  {
    var t := Next(s, a);
    match a
    case Create(l, ledger) => CreateKeepsEvents(s, l, ledger);
    case Attest(l) => if l in s.ledgers && t != s { AppendKeeps(s, AttestationEvent(l), t); }
    case Exclude(l) => if l in s.ledgers && t != s { AppendKeeps(s, ExclusionEvent(l), t); }
    case CommitEvaluation(who) =>
      if t.events != s.events {
        var l := s.ops[who].ledger;
        AppendKeeps(s, EvaluationEvent(l, s.ledgers[l]), t);
      }
    case CommitDecision(who) =>
      if t.events != s.events {
        var op := s.ops[who];
        assert OpSound(s, op);
        AppendKeeps(s, DecisionEvent(op.ledger, op.key, op.eligible), t);
      }
    case _ =>
  }

  lemma OpStays(s: State, t: State, op: Op)
    requires OpSound(s, op) && Grows(s, t)
    ensures OpSound(t, op)
  {
  }

  lemma StepKeepsOps(s: State, a: Action)
    requires OpsSound(s) && EventsSound(s) && Chained(s.grades)
    ensures OpsSound(Next(s, a))
  {
    var t := Next(s, a);
    StepGrows(s, a);
    forall who | who in t.ops ensures OpSound(t, t.ops[who]) {
      if who in s.ops && s.ops[who] == t.ops[who] {
        OpStays(s, t, s.ops[who]);
      } else {
        NewOpIsSound(s, a, who);
      }
    }
  }

  lemma NewOpIsSound(s: State, a: Action, who: nat)
    requires OpsSound(s) && Chained(s.grades) && who in Next(s, a).ops
    requires who !in s.ops || s.ops[who] != Next(s, a).ops[who]
    ensures OpSound(Next(s, a), Next(s, a).ops[who])
  {
    if a.ReadPrior? {
      assert OpSound(s, s.ops[who]);
      LatestGradeIsIn(s.grades, s.ops[who].ledger);
    }
  }

  lemma StepKeepsChain(s: State, a: Action)
    requires OpsSound(s) && Chained(s.grades)
    ensures Chained(Next(s, a).grades)
  {
    if Next(s, a).grades != s.grades {
      CommitExtendsChain(s, s.ops[a.who]);
    }
  }

  lemma StepKeepsSound(s: State, a: Action)
    requires Sound(s)
    ensures Sound(Next(s, a))
  {
    StepKeepsEvents(s, a);
    StepKeepsOps(s, a);
    StepKeepsChain(s, a);
  }

  lemma {:induction false} RunIsSound(s: State, actions: seq<Action>)
    requires Sound(s)
    ensures Sound(Run(s, actions))
  {
    if actions != [] {
      RunIsSound(s, actions[..|actions| - 1]);
      StepKeepsSound(Run(s, actions[..|actions| - 1]), actions[|actions| - 1]);
    }
  }

  // ---- where runs start ----

  /** The schema migration's output: every ledger has its neutral attestation, some have an
      exclusion after it, and nothing is in flight. */
  ghost predicate Migrated(s: State) {
    && s.ops == map[] && Chained(s.grades)
    && (forall l :: l in s.ledgers ==> AttestationEvent(l) in s.events)
    && (forall e :: e in s.events ==>
          e.ledger in s.ledgers && (e == AttestationEvent(e.ledger) || e == ExclusionEvent(e.ledger)))
    && (forall l :: ExclusionEvent(l) in s.events ==> Latest(s.events, l) == Some(ExclusionEvent(l)))
  }

  ghost predicate Reachable(s: State) {
    exists start, actions :: Migrated(start) && s == Run(start, actions)
  }

  lemma {:induction false} InMeansTaken(events: seq<Event>, e: Event, f: Event)
    requires f in events && Clashes(f, e)
    ensures Taken(events, e)
  {
    var front, last := events[..|events| - 1], events[|events| - 1];
    if f != last {
      assert events == front + [last];
      InMeansTaken(front, e, f);
    }
  }

  lemma ReachableIsSound(s: State)
    requires Reachable(s)
    ensures Sound(s)
  {
    var start, actions :| Migrated(start) && s == Run(start, actions);
    forall l | l in start.ledgers ensures Started(start.events, l) {
      InMeansTaken(start.events, Event(AttestId(l), l, CREATION_KEY, true, PreDrawCapture), AttestationEvent(l));
    }
    RunIsSound(start, actions);
  }

  // ---- what every run guarantees ----

  /** A ledger that counts was proposed before the sales cutoff of an official draw day. */
  lemma CountingMeansBeforeCutoff(s: State, l: LedgerId)
    requires Reachable(s) && Counts(s.events, l)
    ensures l in s.ledgers && InWindow(s.ledgers[l])
  {
    ReachableIsSound(s);
    LatestIsIn(s.events, l);
    assert EventSound(s.ledgers, Latest(s.events, l).value);
  }

  /** A step commits at most one grade. Its ledger counts at that moment and was proposed in its
      sales window, its draw was first seen strictly after the proposal, and it continues the
      ledger's chain. */
  lemma NewGradeIsForwardEvidence(s: State, a: Action)
    requires Reachable(s) && Next(s, a).grades != s.grades
    ensures |Next(s, a).grades| == |s.grades| + 1 && Next(s, a).grades[..|s.grades|] == s.grades
    ensures var g := Next(s, a).grades[|s.grades|];
      && Counts(s.events, g.ledger) && g.ledger in s.ledgers && InWindow(s.ledgers[g.ledger])
      && var l := s.ledgers[g.ledger];
      && l.key in s.draws && s.draws[l.key].firstSeen > l.proposed.at
      && g.supersedes == FingerprintOf(LatestGrade(s.grades, g.ledger))
      && g.revision == GradeCount(s.grades, g.ledger) + 1
  {
    ReachableIsSound(s);
    var op := s.ops[a.who];
    assert OpSound(s, op);
    CommitExtendsChain(s, op);
    LatestGradeIsIn(s.grades, op.ledger);
    CountingMeansBeforeCutoff(s, op.ledger);
  }

  /** A ledger's grades form one chain: revisions 1, 2, and so on, each superseding the one before,
      no two with the same fingerprint. */
  lemma GradesFormOneChain(s: State)
    requires Reachable(s)
    ensures Chained(s.grades)
  {
    ReachableIsSound(s);
  }

  /** In a chain the next revision is free exactly when the ledger has no grade of that fingerprint. */
  lemma {:induction false} NextRevisionIsFree(grades: seq<Grade>, g: Grade)
    requires Chained(grades) && g.revision > GradeCount(grades, g.ledger)
    ensures GradeTaken(grades, g) <==> exists h :: h in grades && h.ledger == g.ledger && h.fingerprint == g.fingerprint
  {
    if grades != [] {
      var front, last := grades[..|grades| - 1], grades[|grades| - 1];
      assert grades == front + [last];
      NextRevisionIsFree(front, g);
    }
  }

  /** What a grade rests on is never changed later. */
  lemma {:induction false} EvidenceIsPermanent(s: State, more: seq<Action>)
    ensures Grows(s, Run(s, more))
  {
    if more != [] {
      EvidenceIsPermanent(s, more[..|more| - 1]);
      StepGrows(Run(s, more[..|more| - 1]), more[|more| - 1]);
    }
  }

  /** A new ledger counts exactly when it was proposed in its sales window and no official result
      had been seen by then; the reason on record is the one that decided. */
  lemma CreationDecides(s: State, l: LedgerId, ledger: Ledger)
    requires Reachable(s) && l !in s.ledgers && TicketSalesWindow(ledger.key, ledger.proposed).Some?
    ensures var t := Next(s, Create(l, ledger));
      && t.ledgers == s.ledgers[l := ledger] && Latest(t.events, l).Some?
      && (Counts(t.events, l) <==> InWindow(ledger) && !Violates(s, ledger))
      && Latest(t.events, l).value.reason
         == if Violates(s, ledger) then ResultNotAfterProposal
            else if !InWindow(ledger) then NotBeforeCutoff else if ledger.random then RandomBaseline else PreDrawCapture
  {
    ReachableIsSound(s);
    var e, x := CreationEvent(l, ledger), ExclusionEvent(l);
    NewLedgerIsUntaken(s, e);
    NewLedgerIsUntaken(s, x);
    TakenAppend(s.events, e, x);
    LatestAppend(s.events, e, l);
    LatestAppend(s.events + [e], x, l);
  }

  /** Creating a ledger again can only take eligibility away. */
  lemma RecreationGrantsNothing(s: State, l: LedgerId, ledger: Ledger)
    requires Reachable(s) && l in s.ledgers && Counts(Next(s, Create(l, ledger)).events, l)
    ensures Counts(s.events, l)
  {
    ReachableIsSound(s);
    if TicketSalesWindow(ledger.key, ledger.proposed).Some? {
      var e, x := CreationEvent(l, ledger), ExclusionEvent(l);
      SameClash(s.events, Event(AttestId(l), l, CREATION_KEY, true, PreDrawCapture), e.(id := AttestId(l)));
      LatestAppend(s.events, e, l);
      LatestAppend(Append(s.events, e), x, l);
    }
  }

  /** Creating a ledger again as it is, proposed in its window and with no result there, changes nothing. */
  lemma RecreationIsIdempotent(s: State, l: LedgerId)
    requires Reachable(s) && l in s.ledgers && InWindow(s.ledgers[l]) && !Violates(s, s.ledgers[l])
    ensures Next(s, Create(l, s.ledgers[l])) == s
  {
    ReachableIsSound(s);
    assert Started(s.events, l);
    SameClash(s.events, CreationEvent(l, s.ledgers[l]), Event(AttestId(l), l, CREATION_KEY, true, PreDrawCapture));
  }

  /** The reconciler's exclusion of a ledger whose result was already present takes effect exactly
      when the ledger is excluded already or neither the exclusion's id nor its key is taken. */
  lemma ExclusionTakesExactly(s: State, l: LedgerId)
    requires l in s.ledgers && Violates(s, s.ledgers[l])
    ensures !NotExcluded(Next(s, Exclude(l)).events, l)
            <==> !NotExcluded(s.events, l) || !Taken(s.events, ExclusionEvent(l))
  {
    LatestAppend(s.events, ExclusionEvent(l), l);
  }

  // ---- exclusions stand ----

  predicate EverExcluded(events: seq<Event>, l: LedgerId) {
    events != [] &&
    ((events[|events| - 1].ledger == l && !events[|events| - 1].eligible) || EverExcluded(events[..|events| - 1], l))
  }

  predicate EverReinstated(events: seq<Event>, l: LedgerId) {
    events != [] &&
    ((events[|events| - 1].ledger == l && events[|events| - 1].reason.ManualReinstatement?)
     || EverReinstated(events[..|events| - 1], l))
  }

  lemma EverAppend(events: seq<Event>, e: Event, l: LedgerId)
    ensures EverExcluded(events + [e], l) <==> (e.ledger == l && !e.eligible) || EverExcluded(events, l)
    ensures EverReinstated(events + [e], l)
            <==> (e.ledger == l && e.reason.ManualReinstatement?) || EverReinstated(events, l)
  {
    assert (events + [e])[..|events|] == events;
  }

  lemma {:induction false} ExcludedMeansEvents(events: seq<Event>, l: LedgerId)
    requires EverExcluded(events, l)
    ensures Latest(events, l).Some?
  {
    if events[|events| - 1].ledger != l {
      ExcludedMeansEvents(events[..|events| - 1], l);
    }
  }

  /** Only a manual reinstatement is eligible under the exclusion's id or key. */
  predicate Plain(e: Event) {
    e.eligible && !e.reason.ManualReinstatement? ==> !e.id.ExcludeId? && e.key != EXCLUSION_KEY
  }

  /** Plain, and neutral attestations are eligible. */
  predicate Orderly(e: Event) {
    Plain(e) && (e.reason.SchemaV7Attestation? ==> e.eligible)
  }

  /** Without a reinstatement, an excluded ledger stays excluded. */
  predicate Stands(events: seq<Event>, l: LedgerId) {
    EverExcluded(events, l) && !EverReinstated(events, l) ==> !NotExcluded(events, l)
  }

  /** A waiting evaluation saw the neutral attestation as its ledger's latest event. */
  predicate SawNeutral(events: seq<Event>, op: Op) {
    op.Evaluating? ==>
      && 1 <= op.seen <= |events| && events[op.seen - 1].ledger == op.ledger
      && events[op.seen - 1].eligible
  }

  ghost predicate ExclusionsSound(s: State) {
    && (forall e :: e in s.events ==> Orderly(e))
    && (forall l :: Stands(s.events, l))
    && (forall who :: who in s.ops ==> SawNeutral(s.events, s.ops[who]))
  }

  lemma {:induction false} SequenceIsLatest(events: seq<Event>, l: LedgerId)
    ensures LatestSequence(events, l) <= |events|
    ensures LatestSequence(events, l) > 0 <==> Latest(events, l).Some?
    ensures LatestSequence(events, l) > 0 ==> Latest(events, l) == Some(events[LatestSequence(events, l) - 1])
  {
    if events != [] {
      SequenceIsLatest(events[..|events| - 1], l);
    }
  }

  /** Appending an event that is ineligible, a reinstatement, or for a ledger not excluded so far. */
  lemma AppendStands(events: seq<Event>, e: Event, l: LedgerId)
    requires Stands(events, l)
    requires e.ledger == l && e.eligible && !e.reason.ManualReinstatement? ==>
      Taken(events, e) || NotExcluded(events, l)
    ensures Stands(Append(events, e), l)
  {
    EverAppend(events, e, l);
    LatestAppend(events, e, l);
    if EverExcluded(events, l) {
      ExcludedMeansEvents(events, l);
    }
  }

  lemma CreateStands(s: State, l: LedgerId, ledger: Ledger, k: LedgerId)
    requires Sound(s) && Stands(s.events, k)
    ensures Stands(Created(s, l, ledger).events, k)
  {
    var e := CreationEvent(l, ledger);
    if l in s.ledgers {
      SameClash(s.events, Event(AttestId(l), l, CREATION_KEY, true, PreDrawCapture), e.(id := AttestId(l)));
    } else {
      LatestIsIn(s.events, l);
    }
    AppendStands(s.events, e, k);
    AppendStands(Append(s.events, e), ExclusionEvent(l), k);
  }

  lemma StepStands(s: State, a: Action, k: LedgerId)
    requires Sound(s) && ExclusionsSound(s)
    ensures Stands(Next(s, a).events, k)
  {
    assert Stands(s.events, k);
    var t := Next(s, a);
    match a
    case Create(l, ledger) => CreateStands(s, l, ledger, k);
    case Attest(l) => if t.events != s.events { AppendStands(s.events, AttestationEvent(l), k); }
    case Exclude(l) => AppendStands(s.events, ExclusionEvent(l), k);
    case CommitEvaluation(who) =>
      if t.events != s.events {
        var l := s.ops[who].ledger;
        assert SawNeutral(s.events, s.ops[who]);
        SequenceIsLatest(s.events, l);
        AppendStands(s.events, EvaluationEvent(l, s.ledgers[l]), k);
      }
    case CommitDecision(who) =>
      if t.events != s.events {
        var op := s.ops[who];
        AppendStands(s.events, DecisionEvent(op.ledger, op.key, op.eligible), k);
      }
    case _ =>
  }

  /** The table grew, and only by orderly events. */
  ghost predicate GrewOrderly(events: seq<Event>, after: seq<Event>) {
    && |events| <= |after| && after[..|events|] == events
    && forall e :: e in after ==> Orderly(e)
  }

  lemma AppendOrderly(events: seq<Event>, e: Event)
    requires Orderly(e) && forall f :: f in events ==> Orderly(f)
    ensures GrewOrderly(events, Append(events, e))
  {
  }

  lemma StepAddsOrderly(s: State, a: Action)
    requires forall e :: e in s.events ==> Orderly(e)
    ensures GrewOrderly(s.events, Next(s, a).events)
  {
    if Next(s, a).events != s.events {
      match a
      case Create(l, ledger) =>
        AppendOrderly(s.events, CreationEvent(l, ledger));
        AppendOrderly(Append(s.events, CreationEvent(l, ledger)), ExclusionEvent(l));
      case Attest(l) => AppendOrderly(s.events, AttestationEvent(l));
      case Exclude(l) => AppendOrderly(s.events, ExclusionEvent(l));
      case CommitEvaluation(who) =>
        AppendOrderly(s.events, EvaluationEvent(s.ops[who].ledger, s.ledgers[s.ops[who].ledger]));
      case CommitDecision(who) =>
        AppendOrderly(s.events, DecisionEvent(s.ops[who].ledger, s.ops[who].key, s.ops[who].eligible));
      case _ =>
    }
  }

  lemma StepKeepsSeen(s: State, a: Action, who: nat)
    requires ExclusionsSound(s) && who in Next(s, a).ops && GrewOrderly(s.events, Next(s, a).events)
    ensures SawNeutral(Next(s, a).events, Next(s, a).ops[who])
  {
    var t := Next(s, a);
    if who in s.ops && t.ops[who] == s.ops[who] {
      assert SawNeutral(s.events, s.ops[who]);
    } else if a.ReadNeutral? {
      LatestIsIn(s.events, a.l);
      SequenceIsLatest(s.events, a.l);
    }
  }

  lemma StepKeepsExclusions(s: State, a: Action)
    requires Sound(s) && ExclusionsSound(s)
    ensures ExclusionsSound(Next(s, a))
  {
    var t := Next(s, a);
    StepAddsOrderly(s, a);
    forall l ensures Stands(t.events, l) {
      StepStands(s, a, l);
    }
    forall who | who in t.ops ensures SawNeutral(t.events, t.ops[who]) {
      StepKeepsSeen(s, a, who);
    }
  }

  lemma {:induction false} EverExcludedMeansIn(events: seq<Event>, l: LedgerId) returns (e: Event)
    requires EverExcluded(events, l)
    ensures e in events && e.ledger == l && !e.eligible
  {
    e := events[|events| - 1];
    if e.ledger != l || e.eligible {
      e := EverExcludedMeansIn(events[..|events| - 1], l);
    }
  }

  lemma MigratedIsSound(s: State)
    requires Migrated(s)
    ensures Sound(s) && ExclusionsSound(s)
  {
    forall l | l in s.ledgers ensures Started(s.events, l) {
      InMeansTaken(s.events, Event(AttestId(l), l, CREATION_KEY, true, PreDrawCapture), AttestationEvent(l));
    }
    forall l ensures Stands(s.events, l) {
      if EverExcluded(s.events, l) {
        var e := EverExcludedMeansIn(s.events, l);
      }
    }
  }

  lemma {:induction false} RunKeepsExclusions(s: State, actions: seq<Action>)
    requires Migrated(s)
    ensures Sound(Run(s, actions)) && ExclusionsSound(Run(s, actions))
  {
    if actions == [] {
      MigratedIsSound(s);
    } else {
      var front, last := actions[..|actions| - 1], actions[|actions| - 1];
      RunKeepsExclusions(s, front);
      StepKeepsSound(Run(s, front), last);
      StepKeepsExclusions(Run(s, front), last);
    }
  }

  /** In every run, once a ledger's result was already present at its proposal, the reconciler's
      exclusion leaves it excluded unless a manual reinstatement was ever recorded for it. */
  lemma ExclusionStandsUnlessReinstated(s: State, l: LedgerId)
    requires Reachable(s) && l in s.ledgers && Violates(s, s.ledgers[l]) && !EverReinstated(s.events, l)
    ensures !Counts(Next(s, Exclude(l)).events, l) && !NotExcluded(Next(s, Exclude(l)).events, l)
  {
    var start, actions :| Migrated(start) && s == Run(start, actions);
    RunKeepsExclusions(start, actions);
    ExclusionTakesExactly(s, l);
    if Taken(s.events, ExclusionEvent(l)) {
      TakenExclusionExcludes(s.events, l);
      assert Stands(s.events, l);
    }
  }

  lemma {:induction false} TakenExclusionExcludes(events: seq<Event>, l: LedgerId)
    requires (forall e :: e in events ==> Orderly(e)) && Taken(events, ExclusionEvent(l)) && !EverReinstated(events, l)
    requires forall e :: e in events ==> e.id.of == e.ledger
    ensures EverExcluded(events, l)
  {
    var front, last := events[..|events| - 1], events[|events| - 1];
    assert last in events;
    if !Clashes(last, ExclusionEvent(l)) {
      TakenExclusionExcludes(front, l);
    }
  }

  lemma ReachableStep(s: State, a: Action)
    requires Reachable(s)
    ensures Reachable(Next(s, a))
  {
    var start, actions :| Migrated(start) && s == Run(start, actions);
    assert (actions + [a])[..|actions|] == actions;
    assert Next(s, a) == Run(start, actions + [a]);
  }

  /** The state after a reinstatement's check, an ingested result, the reconciler's exclusion and
      the reinstatement's write, in that order. */
  function LateReinstatement(s: State, who: nat, l: LedgerId, text: string, seen: int): State
    requires l in s.ledgers
  {
    Next(Next(Next(Next(s, CheckDecision(who, l, text, true)), Ingest(s.ledgers[l].key, seen, "result")),
              Exclude(l)),
         CommitDecision(who))
  }

  lemma LateReinstatementCounts(s: State, who: nat, l: LedgerId, text: string, seen: int)
    requires l in s.ledgers && DecisionAllowed(s, l, text, true) && s.ledgers[l].key !in s.draws
    requires seen <= s.ledgers[l].proposed.at
    requires NotExcluded(s.events, l) && !Taken(s.events, ExclusionEvent(l))
    requires text != EXCLUSION_KEY && !Taken(s.events, DecisionEvent(l, text, true))
    ensures var t := LateReinstatement(s, who, l, text, seen);
      && l in t.ledgers && Violates(t, t.ledgers[l])
      && Counts(t.events, l) && Next(t, Exclude(l)) == t
  {
    var x, d := ExclusionEvent(l), DecisionEvent(l, text, true);
    TakenAppend(s.events, x, d);
    TakenAppend(s.events + [x], d, x);
    TakenAppend(s.events, x, x);
    LatestAppend(s.events + [x], d, l);
    LateEvents(s, who, l, text, seen);
  }

  lemma LateReinstatementIsReachable(s: State, who: nat, l: LedgerId, text: string, seen: int)
    requires Reachable(s) && l in s.ledgers
    ensures Reachable(LateReinstatement(s, who, l, text, seen))
  {
    var s1 := Next(s, CheckDecision(who, l, text, true));
    var s2 := Next(s1, Ingest(s.ledgers[l].key, seen, "result"));
    ReachableStep(s, CheckDecision(who, l, text, true));
    ReachableStep(s1, Ingest(s.ledgers[l].key, seen, "result"));
    ReachableStep(s2, Exclude(l));
    ReachableStep(Next(s2, Exclude(l)), CommitDecision(who));
  }

  const EMPTY := State(map[], [], map[], [], map[])

  lemma EmptyIsReachable()
    ensures Migrated(EMPTY) && Reachable(EMPTY)
  {
    assert EMPTY == Run(EMPTY, []);
  }

  lemma FirstLedger(l: LedgerId, ledger: Ledger)
    requires InWindow(ledger)
    ensures Next(EMPTY, Create(l, ledger)) == State(map[l := ledger], [CreationEvent(l, ledger)], map[], [], map[])
  {
    assert [] + [CreationEvent(l, ledger)] == [CreationEvent(l, ledger)];
  }

  /** From an empty store, for every ledger proposed in its sales window: the ledger is created; a
      reinstatement is checked; the result is ingested with a time not after the proposal; the
      reconciler excludes the ledger; the reinstatement is written. The ledger then counts although
      its result was already present at the proposal, and no later reconciliation excludes it. */
  lemma LateReinstatementStands(l: LedgerId, ledger: Ledger, who: nat, text: string, seen: int)
    requires InWindow(ledger) && seen <= ledger.proposed.at
    requires |text| >= 8 && text != EXCLUSION_KEY && text != CREATION_KEY
    ensures l in Next(EMPTY, Create(l, ledger)).ledgers
    ensures var t := LateReinstatement(Next(EMPTY, Create(l, ledger)), who, l, text, seen);
      && Reachable(t) && l in t.ledgers && Violates(t, t.ledgers[l])
      && Counts(t.events, l) && Next(t, Exclude(l)) == t
  {
    var s, e := Next(EMPTY, Create(l, ledger)), CreationEvent(l, ledger);
    EmptyIsReachable();
    ReachableStep(EMPTY, Create(l, ledger));
    FirstLedger(l, ledger);
    assert s.events == [] + [e];
    LatestAppend([], e, l);
    TakenAppend([], e, ExclusionEvent(l));
    TakenAppend([], e, DecisionEvent(l, text, true));
    LateReinstatementCounts(s, who, l, text, seen);
    LateReinstatementIsReachable(s, who, l, text, seen);
  }

  /** There are such ledgers: a Monday draw of the Lotto game, proposed the day before. */
  lemma SomeLedgerIsInWindow()
    ensures InWindow(Ledger(Key(Lotto, 8, NoSession), Moment(0, Clock(7, 0)), false))
  {
  }

  lemma LateEvents(s: State, who: nat, l: LedgerId, text: string, seen: int)
    requires l in s.ledgers && DecisionAllowed(s, l, text, true) && s.ledgers[l].key !in s.draws
    requires seen <= s.ledgers[l].proposed.at
    requires NotExcluded(s.events, l) && !Taken(s.events, ExclusionEvent(l))
    requires !Taken(s.events + [ExclusionEvent(l)], DecisionEvent(l, text, true))
    ensures var t := LateReinstatement(s, who, l, text, seen);
      && t.ledgers == s.ledgers && t.draws == s.draws[s.ledgers[l].key := Draw(seen, "result", true)]
      && t.events == s.events + [ExclusionEvent(l)] + [DecisionEvent(l, text, true)]
  {
    var s1 := Next(s, CheckDecision(who, l, text, true));
    var s2 := Next(s1, Ingest(s.ledgers[l].key, seen, "result"));
    assert s2.ops[who] == Deciding(l, text, true) && Violates(s2, s2.ledgers[l]);
    var s3 := Next(s2, Exclude(l));
    assert s3.events == s.events + [ExclusionEvent(l)] && s3.ops == s2.ops;
  }

  // ---- reinstatements were checked ----

  /** No official result is stored that was there when the ledger was proposed. */
  predicate NoResultAtProposal(s: State, l: LedgerId)
    requires l in s.ledgers
  {
    s.ledgers[l].key !in s.draws || s.draws[s.ledgers[l].key].firstSeen > s.ledgers[l].proposed.at
  }

  /** The `i`-th action checked this reinstatement, and found the ledger proposed in its window and no
      stored result that was there at its proposal. */
  ghost predicate CheckedAt(start: State, actions: seq<Action>, i: nat, l: LedgerId, text: string) {
    && i < |actions| && actions[i].CheckDecision? && actions[i].l == l && actions[i].text == text && actions[i].eligible
    && var s := Run(start, actions[..i]);
       l in s.ledgers && InWindow(s.ledgers[l]) && |text| >= 8 && NoResultAtProposal(s, l)
  }

  ghost predicate WasChecked(start: State, actions: seq<Action>, l: LedgerId, text: string) {
    exists i :: CheckedAt(start, actions, i, l, text)
  }

  lemma StillChecked(start: State, actions: seq<Action>, l: LedgerId, text: string)
    requires actions != [] && WasChecked(start, actions[..|actions| - 1], l, text)
    ensures WasChecked(start, actions, l, text)
  {
    var front := actions[..|actions| - 1];
    var i: nat :| CheckedAt(start, front, i, l, text);
    assert front[..i] == actions[..i];
    assert CheckedAt(start, actions, i, l, text);
  }

  lemma NewDecisionIsChecked(s: State, a: Action, who: nat)
    requires who in Next(s, a).ops && Next(s, a).ops[who].Deciding?
    requires who !in s.ops || s.ops[who] != Next(s, a).ops[who]
    ensures a.CheckDecision? && Next(s, a).ops[who] == Deciding(a.l, a.text, a.eligible)
    ensures DecisionAllowed(s, a.l, a.text, a.eligible)
  {
  }

  lemma {:induction false} DecidingWasChecked(start: State, actions: seq<Action>, who: nat)
    requires start.ops == map[] && who in Run(start, actions).ops
    requires Run(start, actions).ops[who].Deciding? && Run(start, actions).ops[who].eligible
    ensures WasChecked(start, actions, Run(start, actions).ops[who].ledger, Run(start, actions).ops[who].key)
  {
    var front, n := actions[..|actions| - 1], |actions|;
    var s, op := Run(start, front), Run(start, actions).ops[who];
    if who in s.ops && s.ops[who] == op {
      DecidingWasChecked(start, front, who);
      StillChecked(start, actions, op.ledger, op.key);
    } else {
      NewDecisionIsChecked(s, actions[n - 1], who);
      assert CheckedAt(start, actions, n - 1, op.ledger, op.key);
    }
  }

  lemma NewReinstatement(s: State, a: Action, e: Event)
    requires e in Next(s, a).events && e !in s.events && e.reason.ManualReinstatement?
    ensures a.CommitDecision? && a.who in s.ops && s.ops[a.who] == Deciding(e.ledger, e.key, true)
  {
  }

  /** In every run, a recorded reinstatement was checked before it was written, and at its check the
      ledger was in its window and no stored result had been there at its proposal. */
  lemma {:induction false} ReinstatementWasChecked(start: State, actions: seq<Action>, e: Event)
    requires Migrated(start) && e in Run(start, actions).events && e.reason.ManualReinstatement?
    ensures WasChecked(start, actions, e.ledger, e.key)
  {
    if actions != [] {
      var front := actions[..|actions| - 1];
      if e in Run(start, front).events {
        ReinstatementWasChecked(start, front, e);
      } else {
        var a := actions[|actions| - 1];
        NewReinstatement(Run(start, front), a, e);
        DecidingWasChecked(start, front, a.who);
      }
      StillChecked(start, actions, e.ledger, e.key);
    }
  }

  lemma {:induction false} RunInTwoParts(s: State, before: seq<Action>, after: seq<Action>)
    ensures Run(s, before + after) == Run(Run(s, before), after)
  {
    if after == [] {
      assert before + after == before;
    } else {
      assert (before + after)[..|before + after| - 1] == before + after[..|after| - 1];
      RunInTwoParts(s, before, after[..|after| - 1]);
    }
  }

  lemma StoredLater(start: State, actions: seq<Action>, i: nat, l: LedgerId)
    requires i <= |actions| && l in Run(start, actions[..i]).ledgers && NoResultAtProposal(Run(start, actions[..i]), l)
    requires var s := Run(start, actions); l in s.ledgers && Violates(s, s.ledgers[l])
    ensures Run(start, actions).ledgers[l].key !in Run(start, actions[..i]).draws
  {
    assert actions == actions[..i] + actions[i..];
    RunInTwoParts(start, actions[..i], actions[i..]);
    EvidenceIsPermanent(Run(start, actions[..i]), actions[i..]);
  }

  /** A reinstated ledger whose result was there at its proposal was reinstated late: when the
      reinstatement was checked, the result was not stored yet. */
  lemma ViolatingReinstatementWasLate(start: State, actions: seq<Action>, e: Event)
    requires Migrated(start) && e in Run(start, actions).events && e.reason.ManualReinstatement?
    requires var s := Run(start, actions); e.ledger in s.ledgers && Violates(s, s.ledgers[e.ledger])
    ensures exists i: nat :: CheckedAt(start, actions, i, e.ledger, e.key)
                             && Run(start, actions).ledgers[e.ledger].key !in Run(start, actions[..i]).draws
  {
    ReinstatementWasChecked(start, actions, e);
    var i: nat :| CheckedAt(start, actions, i, e.ledger, e.key);
    StoredLater(start, actions, i, e.ledger);
  }

  // ---- neutral ledgers ----

  /** A ledger whose latest event is the neutral attestation has no other event. */
  ghost predicate NeutralAlone(events: seq<Event>, l: LedgerId) {
    Latest(events, l).Some? && Latest(events, l).value.reason.SchemaV7Attestation? ==>
      forall e :: e in events && e.ledger == l ==> e == AttestationEvent(l)
  }

  lemma {:induction false} EventMeansLatest(events: seq<Event>, e: Event)
    requires e in events
    ensures Latest(events, e.ledger).Some?
  {
    var front, last := events[..|events| - 1], events[|events| - 1];
    if last.ledger != e.ledger {
      assert events == front + [last];
      EventMeansLatest(front, e);
    }
  }

  lemma AppendNeutralAlone(events: seq<Event>, e: Event, l: LedgerId)
    requires NeutralAlone(events, l)
    requires e.ledger == l && e.reason.SchemaV7Attestation? ==> e == AttestationEvent(l) && Latest(events, l).None?
    ensures NeutralAlone(Append(events, e), l)
  {
    LatestAppend(events, e, l);
    if Latest(events, l).None? {
      forall f | f in events ensures f.ledger != l {
        EventMeansLatest(events, f);
      }
    }
  }

  lemma StepNeutralAlone(s: State, a: Action, l: LedgerId)
    requires NeutralAlone(s.events, l)
    ensures NeutralAlone(Next(s, a).events, l)
  {
    if Next(s, a).events != s.events {
      match a
      case Create(k, ledger) =>
        AppendNeutralAlone(s.events, CreationEvent(k, ledger), l);
        AppendNeutralAlone(Append(s.events, CreationEvent(k, ledger)), ExclusionEvent(k), l);
      case Attest(k) => AppendNeutralAlone(s.events, AttestationEvent(k), l);
      case Exclude(k) => AppendNeutralAlone(s.events, ExclusionEvent(k), l);
      case CommitEvaluation(who) =>
        AppendNeutralAlone(s.events, EvaluationEvent(s.ops[who].ledger, s.ledgers[s.ops[who].ledger]), l);
      case CommitDecision(who) =>
        AppendNeutralAlone(s.events, DecisionEvent(s.ops[who].ledger, s.ops[who].key, s.ops[who].eligible), l);
      case _ =>
    }
  }

  lemma {:induction false} RunNeutralAlone(start: State, actions: seq<Action>, l: LedgerId)
    requires Migrated(start)
    ensures NeutralAlone(Run(start, actions).events, l)
  {
    if actions != [] {
      RunNeutralAlone(start, actions[..|actions| - 1], l);
      StepNeutralAlone(Run(start, actions[..|actions| - 1]), actions[|actions| - 1], l);
    }
  }

  lemma ReachableNeutralAlone(s: State, l: LedgerId)
    requires Reachable(s)
    ensures NeutralAlone(s.events, l)
  {
    var start, actions :| Migrated(start) && s == Run(start, actions);
    RunNeutralAlone(start, actions, l);
  }

  /** When the key's first result arrived, according to the actions. */
  function FirstIngest(actions: seq<Action>, key: Key): Option<int> {
    if actions == [] then None
    else
      var first, a := FirstIngest(actions[..|actions| - 1], key), actions[|actions| - 1];
      if first.None? && a.Ingest? && a.key == key then Some(a.seen) else first
  }

  /** In every run a draw is stored exactly when it was ever ingested, first seen when that first
      happened. */
  lemma {:induction false} FirstSeenIsFirstIngest(s: State, actions: seq<Action>, key: Key)
    requires key !in s.draws
    ensures var t := Run(s, actions);
      && (key in t.draws <==> FirstIngest(actions, key).Some?)
      && (key in t.draws ==> t.draws[key].firstSeen == FirstIngest(actions, key).value)
  {
    if actions != [] {
      FirstSeenIsFirstIngest(s, actions[..|actions| - 1], key);
    }
  }

  /** The content last ingested for a key and not retired since, according to the actions. */
  function LastShown(actions: seq<Action>, key: Key): Option<string> {
    if actions == [] then None
    else
      var a := actions[|actions| - 1];
      if a.Ingest? && a.key == key then Some(a.fingerprint)
      else if a.Retire? && a.key == key then None
      else LastShown(actions[..|actions| - 1], key)
  }

  /** In every run the active content of a key is what was last ingested for it and not retired since. */
  lemma {:induction false} ActiveIsLastShown(s: State, actions: seq<Action>, key: Key)
    requires key !in s.draws
    ensures var t := Run(s, actions);
      LastShown(actions, key) == if key in t.draws && t.draws[key].active then Some(t.draws[key].fingerprint) else None
  {
    if actions != [] {
      ActiveIsLastShown(s, actions[..|actions| - 1], key);
    }
  }
}
