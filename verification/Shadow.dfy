/**
 * Shadow trials: captured before the draw, graded later by any number of workers while eligibility
 * decisions and draw corrections go on. A grade commits only if its predecessor, both eligibility
 * events and the draw it saw are still current.
 */
module Shadow {
  import opened Csv
  import opened Draws
  import opened Eligibility

  type TrialId = nat

  datatype Trial = Trial(parent: LedgerId, baseline: LedgerId, key: Key, captured: Moment)

  datatype Status = Graded | PrizePending | Excluded

  datatype Exclusion = LedgerExcluded | ResultUnavailable | ResultNotAfterCapture | CapturedAfterCutoff

  /** What a grade says: its evidence and the scored arms as text. The outcome digest stands for
      exactly this value. */
  datatype Outcome = Outcome(status: Status, parentEvent: EventId, baselineEvent: EventId,
                             fingerprint: Option<string>, reason: Option<Exclusion>, arms: string)

  /** The digest of trial, predecessor and outcome. */
  datatype GradeId = GradeId(trial: TrialId, previous: Option<GradeId>, outcome: Outcome)

  /** Reads of one call, waiting for its write. */
  datatype Op =
    | Capturing(trial: TrialId, parent: LedgerId, baseline: LedgerId, key: Key)
    | Scoring(trial: TrialId, previous: Option<GradeId>, parentEvent: Event, baselineEvent: Event, draw: Option<Draw>)

  datatype State = State(trials: map<TrialId, Trial>, grades: seq<GradeId>, events: seq<Event>,
                         draws: map<Key, Draw>, ops: map<nat, Op>)

  const INITIAL := State.State(map[], [], [], map[], map[])

  datatype Action =
    | Decide(event: Event)
    | Ingest(key: Key, seen: int, fingerprint: string)
    | Retire(key: Key)
    | ReadParents(who: nat, trial: TrialId, parent: LedgerId, baseline: LedgerId, key: Key, now: Moment)
    | CommitCapture(who: nat, now: Moment)
    | ReadTrial(who: nat, trial: TrialId)
    | CommitGrade(who: nat, arms: string, pending: bool)

  function ActiveDraw(draws: map<Key, Draw>, key: Key): Option<Draw> {
    if key in draws && draws[key].active then Some(draws[key]) else None
  }

  function FingerprintOf(draw: Option<Draw>): Option<string> {
    if draw.None? then None else Some(draw.value.fingerprint)
  }

  function LatestGrade(grades: seq<GradeId>, trial: TrialId): Option<GradeId> {
    if grades == [] then None
    else if grades[|grades| - 1].trial == trial then Some(grades[|grades| - 1])
    else LatestGrade(grades[..|grades| - 1], trial)
  }

  predicate BeforeCutoff(key: Key, now: Moment) {
    var w := TicketSalesWindow(key, now);
    w.Some? && w.value.beforeCutoff
  }

  /** Why a trial is excluded, if it is. */
  function ExclusionOf(trial: Trial, op: Op): Option<Exclusion>
    requires op.Scoring?
  {
    if !Grants(op.parentEvent) || !Grants(op.baselineEvent) then Some(LedgerExcluded)
    else if op.draw.None? then Some(ResultUnavailable)
    else if op.draw.value.firstSeen <= trial.captured.at then Some(ResultNotAfterCapture)
    else if !BeforeCutoff(trial.key, trial.captured) then Some(CapturedAfterCutoff)
    else None
  }

  function OutcomeOf(trial: Trial, op: Op, arms: string, pending: bool): Outcome
    requires op.Scoring?
  {
    var reason := ExclusionOf(trial, op);
    Outcome(if reason.Some? then Excluded else if pending then PrizePending else Graded,
            op.parentEvent.id, op.baselineEvent.id, FingerprintOf(op.draw), reason,
            if reason.Some? then "" else arms)
  }

  /** The latest event of a ledger has this id. */
  predicate StillLatest(events: seq<Event>, l: LedgerId, id: EventId) {
    Latest(events, l).Some? && Latest(events, l).value.id == id
  }

  /** The commit's guard: predecessor, both eligibility events and the draw are still current. */
  predicate Current(s: State, op: Op)
    requires op.Scoring? && op.trial in s.trials
  {
    var trial := s.trials[op.trial];
    && LatestGrade(s.grades, op.trial) == op.previous
    && StillLatest(s.events, trial.parent, op.parentEvent.id)
    && StillLatest(s.events, trial.baseline, op.baselineEvent.id)
    && FingerprintOf(ActiveDraw(s.draws, trial.key)) == FingerprintOf(op.draw)
  }

  predicate GradeCommits(s: State, op: Op, arms: string, pending: bool) {
    && op.Scoring? && op.trial in s.trials
    && var outcome := OutcomeOf(s.trials[op.trial], op, arms, pending);
    && (op.previous.Some? ==> op.previous.value.outcome != outcome)
    && Current(s, op) && GradeId(op.trial, op.previous, outcome) !in s.grades
  }

  /** The capture's guard: no result row yet, and both ledgers' latest events eligible. */
  predicate CaptureCommits(s: State, op: Op, now: Moment) {
    && op.Capturing? && op.trial !in s.trials && BeforeCutoff(op.key, now) && op.key !in s.draws
    && Latest(s.events, op.parent).Some? && Latest(s.events, op.parent).value.eligible
    && Latest(s.events, op.baseline).Some? && Latest(s.events, op.baseline).value.eligible
  }

  function Next(s: State, a: Action): State {
    match a
    case Decide(e) =>
      // neutral attestations are only given to ledgers without events
      if e.reason.SchemaV7Attestation? && Latest(s.events, e.ledger).Some? then s
      else s.(events := Append(s.events, e))
    case Ingest(key, seen, fingerprint) =>
      s.(draws := s.draws[key := Draw(if key in s.draws then s.draws[key].firstSeen else seen, fingerprint, true)])
    case Retire(key) =>
      if key in s.draws then s.(draws := s.draws[key := s.draws[key].(active := false)]) else s
    case ReadParents(who, trial, parent, baseline, key, now) =>
      if Counts(s.events, parent) && Counts(s.events, baseline) && BeforeCutoff(key, now) && key !in s.draws
      then s.(ops := s.ops[who := Capturing(trial, parent, baseline, key)]) else s
    case CommitCapture(who, now) =>
      if who in s.ops && CaptureCommits(s, s.ops[who], now)
      then
        var op := s.ops[who];
        s.(trials := s.trials[op.trial := Trial(op.parent, op.baseline, op.key, now)], ops := s.ops - {who})
      else s.(ops := s.ops - {who})
    case ReadTrial(who, id) =>
      if id !in s.trials || Latest(s.events, s.trials[id].parent).None?
         || Latest(s.events, s.trials[id].baseline).None?
      then s
      else
        var t := s.trials[id];
        s.(ops := s.ops[who := Scoring(id, LatestGrade(s.grades, id), Latest(s.events, t.parent).value,
                                       Latest(s.events, t.baseline).value, ActiveDraw(s.draws, t.key))])
    case CommitGrade(who, arms, pending) =>
      if who in s.ops && GradeCommits(s, s.ops[who], arms, pending)
      then
        var op := s.ops[who];
        s.(grades := s.grades + [GradeId(op.trial, op.previous, OutcomeOf(s.trials[op.trial], op, arms, pending))],
           ops := s.ops - {who})
      else s.(ops := s.ops - {who})
  }

  function Run(s: State, actions: seq<Action>): State {
    if actions == [] then s else Next(Run(s, actions[..|actions| - 1]), actions[|actions| - 1])
  }

  // ---- invariants ----

  /** Each grade follows the latest grade of its trial before it and says something else. */
  predicate Chained(grades: seq<GradeId>) {
    grades != [] ==>
      var front, g := grades[..|grades| - 1], grades[|grades| - 1];
      && Chained(front)
      && g.previous == LatestGrade(front, g.trial)
      && (g.previous.Some? ==> g.previous.value.outcome != g.outcome)
  }

  predicate UniqueIds(events: seq<Event>) {
    forall i, j :: 0 <= i < j < |events| ==> events[i].id != events[j].id
  }

  /** The draw an operation saw is the row still there, whatever became of its content. */
  predicate DrawSound(s: State, trial: Trial, draw: Option<Draw>) {
    draw.Some? ==> trial.key in s.draws && s.draws[trial.key].firstSeen == draw.value.firstSeen
  }

  predicate OpSound(s: State, op: Op) {
    match op
    case Capturing(_, parent, baseline, _) => Attested(s.events, parent) && Attested(s.events, baseline)
    case Scoring(id, _, parentEvent, baselineEvent, draw) =>
      && id in s.trials && DrawSound(s, s.trials[id], draw)
      && parentEvent in s.events && baselineEvent in s.events
  }

  /** The ledger's latest event is not the neutral attestation. */
  predicate Attested(events: seq<Event>, l: LedgerId) {
    Latest(events, l).Some? && !Latest(events, l).value.reason.SchemaV7Attestation?
  }

  ghost predicate Sound(s: State) {
    && Chained(s.grades) && UniqueIds(s.events)
    && forall who :: who in s.ops ==> OpSound(s, s.ops[who])
  }

  lemma {:induction false} UntakenIdIsNew(events: seq<Event>, e: Event, i: nat)
    requires !Taken(events, e) && i < |events|
    ensures events[i].id != e.id
  {
    if i < |events| - 1 {
      UntakenIdIsNew(events[..|events| - 1], e, i);
    }
  }

  lemma AppendKeepsIds(events: seq<Event>, e: Event)
    requires UniqueIds(events)
    ensures UniqueIds(Append(events, e))
  {
    if !Taken(events, e) {
      forall i | 0 <= i < |events| ensures events[i].id != e.id {
        UntakenIdIsNew(events, e, i);
      }
    }
  }

  /** Trials and first-seen times are never changed, and events never leave. */
  ghost predicate Grows(s: State, t: State) {
    && (forall id :: id in s.trials ==> id in t.trials && t.trials[id] == s.trials[id])
    && (forall key :: key in s.draws ==> key in t.draws && t.draws[key].firstSeen == s.draws[key].firstSeen)
    && (forall e :: e in s.events ==> e in t.events)
    && (forall l :: Attested(s.events, l) ==> Attested(t.events, l))
  }

  lemma DecideGrows(s: State, e: Event)
    ensures Grows(s, Next(s, Decide(e)))
  {
    forall l | Attested(s.events, l) ensures Attested(Next(s, Decide(e)).events, l) {
      LatestAppend(s.events, e, l);
    }
  }

  lemma StepGrows(s: State, a: Action)
    ensures Grows(s, Next(s, a))
  {
    if a.Decide? {
      DecideGrows(s, a.event);
    }
  }

  lemma OpStays(s: State, t: State, op: Op)
    requires OpSound(s, op) && Grows(s, t)
    ensures OpSound(t, op)
  {
  }

  lemma NewOpIsSound(s: State, a: Action, who: nat)
    requires who in Next(s, a).ops && (who !in s.ops || s.ops[who] != Next(s, a).ops[who])
    ensures OpSound(Next(s, a), Next(s, a).ops[who])
  {
    if a.ReadTrial? {
      var t := s.trials[a.trial];
      LatestIsIn(s.events, t.parent);
      LatestIsIn(s.events, t.baseline);
    }
  }

  lemma StepKeepsOps(s: State, a: Action)
    requires Sound(s)
    ensures forall who :: who in Next(s, a).ops ==> OpSound(Next(s, a), Next(s, a).ops[who])
  {
    var t := Next(s, a);
    StepGrows(s, a);
    forall who | who in t.ops ensures OpSound(t, t.ops[who]) {
      if who in s.ops && s.ops[who] == t.ops[who] {
        OpStays(s, t, s.ops[who]);
      } else {
        NewOpIsSound(s, a, who);
      }
    }
  }

  lemma StepKeepsSound(s: State, a: Action)
    requires Sound(s)
    ensures Sound(Next(s, a))
  {
    StepKeepsOps(s, a);
    var t := Next(s, a);
    if a.Decide? {
      AppendKeepsIds(s.events, a.event);
    }
    if t.grades != s.grades {
      assert t.grades[..|t.grades| - 1] == s.grades;
    }
  }

  lemma {:induction false} RunIsSound(s: State, actions: seq<Action>)
    requires Sound(s)
    ensures Sound(Run(s, actions))
  {
    if actions != [] {
      RunIsSound(s, actions[..|actions| - 1]);
      StepKeepsSound(Run(s, actions[..|actions| - 1]), actions[|actions| - 1]);
    }
  }

  ghost predicate Reachable(s: State) {
    exists actions :: s == Run(INITIAL, actions)
  }

  lemma ReachableIsSound(s: State)
    requires Reachable(s)
    ensures Sound(s)
  {
    var actions :| s == Run(INITIAL, actions);
    RunIsSound(INITIAL, actions);
  }

  // ---- what every interleaving guarantees ----

  /** A trial's grades form one chain without forks, and neighbours differ in outcome. */
  lemma GradesFormOneChain(s: State, i: nat, j: nat)
    requires Reachable(s) && i < j < |s.grades| && s.grades[i].trial == s.grades[j].trial
    ensures Chained(s.grades)
    ensures s.grades[i] != s.grades[j] && s.grades[i].previous != s.grades[j].previous
  {
    ReachableIsSound(s);
    NoForks(s.grades, i, j);
  }

  /** How many grades precede this one in its chain. */
  function Depth(g: Option<GradeId>): nat {
    if g.None? then 0 else 1 + Depth(g.value.previous)
  }

  lemma {:induction false} LatestIsDeepest(grades: seq<GradeId>, i: nat)
    requires Chained(grades) && i < |grades|
    ensures Depth(Some(grades[i])) <= Depth(LatestGrade(grades, grades[i].trial))
  {
    var front, last := grades[..|grades| - 1], grades[|grades| - 1];
    if i < |grades| - 1 {
      LatestIsDeepest(front, i);
    }
  }

  lemma {:induction false} NoForks(grades: seq<GradeId>, i: nat, j: nat)
    requires Chained(grades) && i < j < |grades| && grades[i].trial == grades[j].trial
    ensures Depth(Some(grades[i])) < Depth(Some(grades[j]))
    ensures grades[i] != grades[j] && grades[i].previous != grades[j].previous
  {
    var front := grades[..|grades| - 1];
    if j < |grades| - 1 {
      NoForks(front, i, j);
    } else {
      LatestIsDeepest(front, i);
    }
  }

  lemma SameIdSameEvent(events: seq<Event>, e: Event, f: Event)
    requires UniqueIds(events) && e in events && f in events && e.id == f.id
    ensures e == f
  {
  }

  predicate BothCount(s: State, t: Trial) {
    Counts(s.events, t.parent) && Counts(s.events, t.baseline)
  }

  predicate HasResult(s: State, t: Trial) {
    t.key in s.draws && s.draws[t.key].active
  }

  predicate ResultIsLate(s: State, t: Trial) {
    t.key in s.draws && s.draws[t.key].firstSeen > t.captured.at
  }

  /** The evidence a grade names is what the tables hold. */
  predicate NamesEvidence(s: State, t: Trial, o: Outcome) {
    && StillLatest(s.events, t.parent, o.parentEvent) && StillLatest(s.events, t.baseline, o.baselineEvent)
    && o.fingerprint == if HasResult(s, t) then Some(s.draws[t.key].fingerprint) else None
  }

  /** The reason is the first that applies: a ledger that does not count, no official result, a result
      that was there at the capture, a capture that was not before the cutoff. */
  predicate ReasonApplies(s: State, t: Trial, reason: Option<Exclusion>) {
    && (reason == Some(LedgerExcluded) <==> !BothCount(s, t))
    && (reason == Some(ResultUnavailable) <==> BothCount(s, t) && !HasResult(s, t))
    && (reason == Some(ResultNotAfterCapture) <==> BothCount(s, t) && HasResult(s, t) && !ResultIsLate(s, t))
    && (reason == Some(CapturedAfterCutoff) <==>
          BothCount(s, t) && HasResult(s, t) && ResultIsLate(s, t) && !BeforeCutoff(t.key, t.captured))
  }

  /** A trial is excluded exactly when a reason applies; otherwise it is pending exactly when a prize
      is, and carries the scored arms. */
  predicate Judged(s: State, t: Trial, o: Outcome, arms: string, pending: bool) {
    && NamesEvidence(s, t, o) && ReasonApplies(s, t, o.reason)
    && (o.status.Excluded? <==>
          !BothCount(s, t) || !HasResult(s, t) || !ResultIsLate(s, t) || !BeforeCutoff(t.key, t.captured))
    && (if o.status.Excluded? then o.arms == ""
        else o.arms == arms && (o.status.PrizePending? <==> pending) && (o.status.Graded? <==> !pending))
  }

  /** What an operation scores, when all it read is still current. */
  lemma CurrentIsJudged(s: State, op: Op, arms: string, pending: bool)
    requires op.Scoring? && op.trial in s.trials && OpSound(s, op) && UniqueIds(s.events) && Current(s, op)
    ensures Judged(s, s.trials[op.trial], OutcomeOf(s.trials[op.trial], op, arms, pending), arms, pending)
  {
    var t := s.trials[op.trial];
    LatestIsIn(s.events, t.parent);
    LatestIsIn(s.events, t.baseline);
    SameIdSameEvent(s.events, op.parentEvent, Latest(s.events, t.parent).value);
    SameIdSameEvent(s.events, op.baselineEvent, Latest(s.events, t.baseline).value);
  }

  /** Whatever went on since its trial was read, a committed grade says what the tables say at the
      commit: it names the current eligibility events and draw, is excluded if and only if a ledger
      does not count, no active draw exists, the draw was seen by the capture, or the capture was not
      before the cutoff, and otherwise is pending or graded with the scored arms. */
  lemma CommittedGradeIsCurrent(s: State, a: Action)
    requires Reachable(s) && Next(s, a).grades != s.grades
    ensures a.CommitGrade?
    ensures |Next(s, a).grades| == |s.grades| + 1 && Next(s, a).grades[..|s.grades|] == s.grades
    ensures var g := Next(s, a).grades[|s.grades|];
      && g.trial in s.trials && g.previous == LatestGrade(s.grades, g.trial)
      && Judged(s, s.trials[g.trial], g.outcome, a.arms, a.pending)
  {
    ReachableIsSound(s);
    assert OpSound(s, s.ops[a.who]);
    CurrentIsJudged(s, s.ops[a.who], a.arms, a.pending);
  }

  /** A trial is captured before the sales cutoff, before any official result is known, while both
      of its ledgers count. */
  lemma CaptureIsForward(s: State, a: Action, id: TrialId)
    requires Reachable(s) && id !in s.trials && id in Next(s, a).trials
    ensures var t := Next(s, a).trials[id];
      && BeforeCutoff(t.key, t.captured) && t.key !in s.draws
      && Counts(s.events, t.parent) && Counts(s.events, t.baseline)
  {
    ReachableIsSound(s);
    assert OpSound(s, s.ops[a.who]);
  }

  /** Trials and what grades rest on are never changed later. */
  lemma {:induction false} EvidenceIsPermanent(s: State, more: seq<Action>)
    ensures forall id :: id in s.trials ==> id in Run(s, more).trials && Run(s, more).trials[id] == s.trials[id]
    ensures forall key :: key in s.draws ==>
      key in Run(s, more).draws && Run(s, more).draws[key].firstSeen == s.draws[key].firstSeen
    ensures |s.grades| <= |Run(s, more).grades| && Run(s, more).grades[..|s.grades|] == s.grades
  {
    if more != [] {
      EvidenceIsPermanent(s, more[..|more| - 1]);
      StepGrows(Run(s, more[..|more| - 1]), more[|more| - 1]);
    }
  }

  /** When the key's first result arrived, according to the actions. */
  function FirstIngest(actions: seq<Action>, key: Key): Option<int> {
    if actions == [] then None
    else
      var first, a := FirstIngest(actions[..|actions| - 1], key), actions[|actions| - 1];
      if first.None? && a.Ingest? && a.key == key then Some(a.seen) else first
  }

  /** In every run a draw is stored exactly when it was ever ingested, first seen when that first
      happened. */
  lemma {:induction false} FirstSeenIsFirstIngest(s: State, actions: seq<Action>, key: Key)
    requires key !in s.draws
    ensures var t := Run(s, actions);
      && (key in t.draws <==> FirstIngest(actions, key).Some?)
      && (key in t.draws ==> t.draws[key].firstSeen == FirstIngest(actions, key).value)
  {
    if actions != [] {
      FirstSeenIsFirstIngest(s, actions[..|actions| - 1], key);
    }
  }

  /** The content last ingested for a key and not retired since, according to the actions. */
  function LastShown(actions: seq<Action>, key: Key): Option<string> {
    if actions == [] then None
    else
      var a := actions[|actions| - 1];
      if a.Ingest? && a.key == key then Some(a.fingerprint)
      else if a.Retire? && a.key == key then None
      else LastShown(actions[..|actions| - 1], key)
  }

  /** In every run the active content of a key is what was last ingested for it and not retired since. */
  lemma {:induction false} ActiveIsLastShown(s: State, actions: seq<Action>, key: Key)
    requires key !in s.draws
    ensures var t := Run(s, actions);
      LastShown(actions, key) == if key in t.draws && t.draws[key].active then Some(t.draws[key].fingerprint) else None
  {
    if actions != [] {
      ActiveIsLastShown(s, actions[..|actions| - 1], key);
    }
  }
}
