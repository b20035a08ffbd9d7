/** The evidence tables and the calls that change them, each shown against the steps it takes. */
module EvidenceStore {
  import opened Csv
  import opened Draws
  import opened Eligibility

  datatype Decided = Refused | AlreadyRecorded | Recorded

  class Evidence {
    var ledgers: map<LedgerId, Ledger>
    var events: seq<Event>
    var draws: map<Key, Draw>
    var grades: seq<Grade>

    ghost function View(): State
      reads this
    {
      State(ledgers, events, draws, grades, map[])
    }

    constructor ()
      ensures View() == State(map[], [], map[], [], map[])
    {
      ledgers, events, draws, grades := map[], [], map[], [];
    }

    method InsertEvent(e: Event)
      modifies this`events
      ensures events == Append(old(events), e)
    {
      if !Taken(events, e) {
        events := events + [e];
      }
    }

    /** Refused when the game and session do not go together; otherwise one batch. */
    method CreateLedger(l: LedgerId, ledger: Ledger) returns (created: Option<bool>)
      modifies this
      ensures View() == Next(old(View()), Create(l, ledger))
      ensures created.Some? <==> TicketSalesWindow(ledger.key, ledger.proposed).Some?
      ensures created.Some? ==> (created.value <==> l !in old(ledgers))
    {
      var window := TicketSalesWindow(ledger.key, ledger.proposed);
      if window.None? {
        return None;
      }
      created := Some(l !in ledgers);
      if l !in ledgers {
        ledgers := ledgers[l := ledger];
      }
      InsertEvent(CreationEvent(l, ledger));
      if ledgers[l].key in draws && draws[ledgers[l].key].firstSeen <= ledgers[l].proposed.at {
        InsertEvent(ExclusionEvent(l));
      }
    }

    /** An auditable inclusion or exclusion. It is recorded exactly when it is allowed and neither
        its id nor its key is taken, and then it decides whether the ledger counts. A reinstatement
        is refused after the sales cutoff, and when a result was already present at the proposal. */
    method AppendLedgerEligibilityEvent(l: LedgerId, text: string, eligible: bool) returns (r: Decided)
      modifies this`events
      ensures r.Recorded? <==>
        && l in ledgers && |text| >= 8
        && (eligible ==> InWindow(ledgers[l]) && NoResultAtProposal(old(View()), l))
        && !Taken(old(events), DecisionEvent(l, text, eligible))
      ensures r.AlreadyRecorded? <==> l in ledgers && |text| >= 8 && DecisionEvent(l, text, eligible) in old(events)
      ensures r.Recorded? && eligible ==>
        ledgers[l].key !in draws || draws[ledgers[l].key].firstSeen > ledgers[l].proposed.at
      ensures r.Recorded? ==> events == old(events) + [DecisionEvent(l, text, eligible)]
      ensures r.Recorded? ==> (Counts(events, l) <==> eligible)
      ensures !r.Recorded? ==> events == old(events)
      ensures View() == Next(Next(old(View()), CheckDecision(0, l, text, eligible)), CommitDecision(0))
    {
      var e := DecisionEvent(l, text, eligible);
      if |text| < 8 || l !in ledgers {
        return Refused;
      }
      if e in events {
        InMeansTaken(events, e, e);
        return AlreadyRecorded;
      }
      if eligible {
        var window := TicketSalesWindow(ledgers[l].key, ledgers[l].proposed);
        if window.None? || !window.value.isDrawDay || !window.value.beforeCutoff {
          return Refused;
        }
        if ledgers[l].key in draws && draws[ledgers[l].key].firstSeen <= ledgers[l].proposed.at {
          return Refused;
        }
      }
      r := if Taken(events, e) then Refused else Recorded;
      LatestAppend(events, e, l);
      InsertEvent(e);
    }

    method AttestLedger(l: LedgerId)
      modifies this`events
      ensures View() == Next(old(View()), Attest(l))
    {
      if l in ledgers && Latest(events, l).None? {
        InsertEvent(AttestationEvent(l));
      }
    }

    method ExcludeLedger(l: LedgerId)
      modifies this`events
      ensures View() == Next(old(View()), Exclude(l))
    {
      if l in ledgers && ledgers[l].key in draws && draws[ledgers[l].key].firstSeen <= ledgers[l].proposed.at
         && NotExcluded(events, l)
      {
        InsertEvent(ExclusionEvent(l));
      }
    }

    method EvaluateLedger(l: LedgerId)
      modifies this`events
      ensures View() == Evaluated(old(View()), l)
    {
      if l in ledgers && Latest(events, l).Some? && Latest(events, l).value.reason.SchemaV7Attestation? {
        InsertEvent(EvaluationEvent(l, ledgers[l]));
      }
    }

    /** The three statements of a reconciliation, for one ledger. */
    method ReconcileLedger(l: LedgerId)
      modifies this`events
      ensures View() == Reconciled(old(View()), l)
    {
      AttestLedger(l);
      ExcludeLedger(l);
      EvaluateLedger(l);
    }

    /** Reconciles every listed ledger, one after the other (the statements for one ledger touch no
        other). Afterwards a listed ledger that counts was proposed in its sales window, and if its
        result was already present it had been reinstated by hand. */
    method ReconcileLedgerEligibility(ids: seq<LedgerId>)
      requires Reachable(View())
      modifies this`events
      ensures Reachable(View())
      ensures AllSettled(View(), ids)
    {
      for i := 0 to |ids|
        invariant SettledUpTo(View(), ids, i)
      {
        ghost var before := View();
        ReconcileLedger(ids[i]);
        ReconcilingSettlesOneMore(before, ids, i);
      }
      assert ids[..|ids|] == ids;
    }

    /** Grades a ledger's current result: the reads and the guarded commit, undisturbed. */
    method GradeLedger(l: LedgerId) returns (graded: bool)
      modifies this`grades
      ensures View() == GradedOnce(old(View()), l)
      ensures Chained(old(grades)) ==> (graded <==> Ungraded(old(View()), l))
      ensures graded <==> grades != old(grades)
      ensures graded && Chained(old(grades)) ==>
        grades == old(grades) + [Grade(l, GradeCount(old(grades), l) + 1, FingerprintOf(LatestGrade(old(grades), l)),
                                       draws[ledgers[l].key].fingerprint)]
    {
      GradedOnceExactly(View(), l);
      if Chained(grades) {
        GradingAdds(View(), l);
      }
      if l !in ledgers || ledgers[l].key !in draws {
        return false;
      }
      var draw, prior := draws[ledgers[l].key], LatestGrade(grades, l);
      if !draw.active || draw.firstSeen <= ledgers[l].proposed.at || !Counts(events, l)
         || (prior.Some? && prior.value.fingerprint == draw.fingerprint)
      {
        return false;
      }
      var g := if prior.None? then Grade(l, 1, None, draw.fingerprint)
               else Grade(l, prior.value.revision + 1, Some(prior.value.fingerprint), draw.fingerprint);
      graded := !GradeTaken(grades, g);
      if graded {
        grades := grades + [g];
      }
    }
  }

  /** The ledger counts, its active draw was first seen after its proposal, and none of its grades is
      of that draw's content. */
  ghost predicate Ungraded(s: State, l: LedgerId) {
    && l in s.ledgers && Counts(s.events, l)
    && var key := s.ledgers[l].key;
    && key in s.draws && s.draws[key].active && s.draws[key].firstSeen > s.ledgers[l].proposed.at
    && forall g :: g in s.grades && g.ledger == l ==> g.fingerprint != s.draws[key].fingerprint
  }

  /** The two reads and the commit, undisturbed. */
  function GradedOnce(s: State, l: LedgerId): State {
    Next(Next(Next(s, SelectGrade(0, l)), ReadPrior(0)), CommitGrade(0))
  }

  /** The grade a gradable ledger would get. */
  function GradeFor(s: State, l: LedgerId): Grade
    requires Gradable(s, l)
  {
    NewGrade(Grading(l, s.draws[s.ledgers[l].key].fingerprint, LatestGrade(s.grades, l)))
  }

  lemma GradedOnceExactly(s: State, l: LedgerId)
    requires s.ops == map[]
    ensures var free := Gradable(s, l) && !GradeTaken(s.grades, GradeFor(s, l));
      GradedOnce(s, l) == if free then s.(grades := s.grades + [GradeFor(s, l)]) else s
  {
    if Gradable(s, l) {
      var op := Grading(l, s.draws[s.ledgers[l].key].fingerprint, LatestGrade(s.grades, l));
      var t := Next(Next(s, SelectGrade(0, l)), ReadPrior(0));
      assert t.ops[0] == op && t.ops - {0} == map[];
    }
  }

  lemma GradingAdds(s: State, l: LedgerId)
    requires s.ops == map[] && Chained(s.grades)
    ensures Gradable(s, l) && !GradeTaken(s.grades, GradeFor(s, l)) <==> Ungraded(s, l)
    ensures Gradable(s, l) ==>
      GradeFor(s, l) == Grade(l, GradeCount(s.grades, l) + 1, FingerprintOf(LatestGrade(s.grades, l)),
                              s.draws[s.ledgers[l].key].fingerprint)
  {
    LatestGradeIsIn(s.grades, l);
    if Gradable(s, l) {
      NextRevisionIsFree(s.grades, GradeFor(s, l));
    }
  }

  /** The ledger counts and its active draw was first seen after its proposal. */
  predicate HasForwardResult(s: State, l: LedgerId) {
    && l in s.ledgers && Counts(s.events, l)
    && var key := s.ledgers[l].key;
    && key in s.draws && s.draws[key].active && s.draws[key].firstSeen > s.ledgers[l].proposed.at
  }

  predicate GradeIsCurrent(s: State, l: LedgerId)
    requires HasForwardResult(s, l)
  {
    FingerprintOf(LatestGrade(s.grades, l)) == Some(s.draws[s.ledgers[l].key].fingerprint)
  }

  lemma LatestGradeAppend(grades: seq<Grade>, g: Grade)
    ensures LatestGrade(grades + [g], g.ledger) == Some(g)
  {
  }

  /** Grading leaves the latest grade on the draw as it is now, exactly when no superseded grade of
      the ledger is already of that content. */
  lemma GradeIsCurrentExactly(s: State, l: LedgerId)
    requires s.ops == map[] && Chained(s.grades) && HasForwardResult(s, l)
    ensures HasForwardResult(GradedOnce(s, l), l)
    ensures GradeIsCurrent(GradedOnce(s, l), l) <==>
      forall g :: g in s.grades && g.ledger == l && g.fingerprint == s.draws[s.ledgers[l].key].fingerprint ==>
        LatestGrade(s.grades, l) == Some(g)
  {
    GradedOnceExactly(s, l);
    GradingAdds(s, l);
    LatestGradeIsIn(s.grades, l);
    if GradeIsCurrent(s, l) {
      OneGradePerContent(s.grades, LatestGrade(s.grades, l).value);
    } else if Ungraded(s, l) {
      LatestGradeAppend(s.grades, GradeFor(s, l));
    }
  }

  lemma {:induction false} OneGradePerContent(grades: seq<Grade>, g: Grade)
    requires Chained(grades) && g in grades
    ensures forall h :: h in grades && h.ledger == g.ledger && h.fingerprint == g.fingerprint ==> h == g
  {
    var front, last := grades[..|grades| - 1], grades[|grades| - 1];
    assert grades == front + [last];
    if last.ledger == g.ledger && last.fingerprint == g.fingerprint {
      NextRevisionIsFree(front, last);
    } else {
      OneGradePerContent(front, g);
    }
  }

  /** A draw is ingested with this content, and its ledger is graded. */
  function Corrected(s: State, l: LedgerId, key: Key, seen: int, content: string): State {
    GradedOnce(Next(s, Ingest(key, seen, content)), l)
  }

  lemma CorrectedIsReachable(s: State, l: LedgerId, key: Key, seen: int, content: string)
    requires Reachable(s)
    ensures Reachable(Corrected(s, l, key, seen, content))
  {
    var s1 := Next(s, Ingest(key, seen, content));
    var s2 := Next(s1, SelectGrade(0, l));
    ReachableStep(s, Ingest(key, seen, content));
    ReachableStep(s1, SelectGrade(0, l));
    ReachableStep(s2, ReadPrior(0));
    ReachableStep(Next(s2, ReadPrior(0)), CommitGrade(0));
  }

  lemma CorrectionIsGraded(s: State, l: LedgerId, ledger: Ledger, seen: int, content: string)
    requires s.ops == map[] && l in s.ledgers && s.ledgers[l] == ledger && Counts(s.events, l)
    requires if ledger.key in s.draws then s.draws[ledger.key].firstSeen == seen else true
    requires seen > ledger.proposed.at && Chained(s.grades)
    requires forall g :: g in s.grades && g.ledger == l ==> g.fingerprint != content
    ensures var t := Corrected(s, l, ledger.key, seen, content);
      && t.ops == map[] && t.ledgers == s.ledgers && t.events == s.events && Chained(t.grades)
      && t.draws == s.draws[ledger.key := Draw(seen, content, true)]
      && t.grades
         == s.grades + [Grade(l, GradeCount(s.grades, l) + 1, FingerprintOf(LatestGrade(s.grades, l)), content)]
  {
    var s1 := Next(s, Ingest(ledger.key, seen, content));
    GradedOnceExactly(s1, l);
    GradingAdds(s1, l);
    assert Ungraded(s1, l);
    assert (s.grades + [GradeFor(s1, l)])[..|s.grades|] == s.grades;
  }

  /** A ledger is created, its result is published, corrected, and corrected back. */
  function Reverted(l: LedgerId, ledger: Ledger, seen: int, first: string, second: string): State {
    var s := Corrected(Next(EMPTY, Create(l, ledger)), l, ledger.key, seen, first);
    Corrected(Corrected(s, l, ledger.key, seen, second), l, ledger.key, seen, first)
  }

  /** The draw says `now`, the latest grade is of `graded`, and grading again changes nothing. */
  predicate StaysOn(s: State, l: LedgerId, now: string, graded: string) {
    && HasForwardResult(s, l) && s.draws[s.ledgers[l].key].fingerprint == now
    && FingerprintOf(LatestGrade(s.grades, l)) == Some(graded) && GradedOnce(s, l) == s
  }

  /** From an empty store, for every ledger proposed in its window: its result is published, corrected
      and corrected back. The latest grade stays that of the withdrawn content, whatever is graded. */
  lemma RevertedResultIsNotRegraded(l: LedgerId, ledger: Ledger, seen: int, first: string, second: string)
    requires InWindow(ledger) && seen > ledger.proposed.at && first != second
    ensures Reachable(Reverted(l, ledger, seen, first, second))
    ensures StaysOn(Reverted(l, ledger, seen, first, second), l, first, second)
  {
    var s0 := Next(EMPTY, Create(l, ledger));
    EmptyIsReachable();
    ReachableStep(EMPTY, Create(l, ledger));
    FirstLedger(l, ledger);
    LatestAppend([], CreationEvent(l, ledger), l);
    assert s0.events == [] + [CreationEvent(l, ledger)];
    var s1 := Corrected(s0, l, ledger.key, seen, first);
    CorrectionIsGraded(s0, l, ledger, seen, first);
    CorrectedIsReachable(s0, l, ledger.key, seen, first);
    var s2 := Corrected(s1, l, ledger.key, seen, second);
    CorrectionIsGraded(s1, l, ledger, seen, second);
    CorrectedIsReachable(s1, l, ledger.key, seen, second);
    CorrectedIsReachable(s2, l, ledger.key, seen, first);
    ReversionIsNotGraded(s2, l, ledger, seen, first, second);
  }

  lemma ReversionIsNotGraded(s: State, l: LedgerId, ledger: Ledger, seen: int, first: string, second: string)
    requires s.ops == map[] && l in s.ledgers && s.ledgers[l] == ledger && Counts(s.events, l)
    requires ledger.key in s.draws && s.draws[ledger.key].firstSeen == seen > ledger.proposed.at
    requires Chained(s.grades) && first != second && FingerprintOf(LatestGrade(s.grades, l)) == Some(second)
    requires exists g :: g in s.grades && g.ledger == l && g.fingerprint == first
    ensures var t := Corrected(s, l, ledger.key, seen, first);
      StaysOn(t, l, first, second)
  {
    var s1 := Next(s, Ingest(ledger.key, seen, first));
    GradedOnceExactly(s1, l);
    GradingAdds(s1, l);
    assert !Ungraded(s1, l);
  }

  // ---- an undisturbed reconciliation ----

  predicate Neutral(s: State, l: LedgerId) {
    l in s.ledgers && Latest(s.events, l).Some? && Latest(s.events, l).value.reason.SchemaV7Attestation?
  }

  /** A neutral ledger is read and then evaluated against its sales window. */
  function Evaluated(s: State, l: LedgerId): State {
    if Neutral(s, l) then Next(Next(s, ReadNeutral(0, l)), CommitEvaluation(0)) else s
  }

  /** Attest, exclude, then evaluate. */
  function Reconciled(s: State, l: LedgerId): State {
    Evaluated(Next(Next(s, Attest(l)), Exclude(l)), l)
  }

  /** A ledger's neutral attestation has been replaced by a decision; a ledger that counts was proposed
      in its window, and if its result was there at the proposal it was reinstated by hand. */
  predicate Settled(s: State, l: LedgerId) {
    l in s.ledgers ==>
      && Latest(s.events, l).Some? && !Latest(s.events, l).value.reason.SchemaV7Attestation?
      && (Counts(s.events, l) ==>
            InWindow(s.ledgers[l]) && (NoResultAtProposal(s, l) || EverReinstated(s.events, l)))
  }

  lemma NeutralLeavesFree(s: State, l: LedgerId, e: Event)
    requires Reachable(s) && Neutral(s, l) && e.ledger == l && e.id.of == l
    requires !e.id.AttestId? && e.key != INITIAL_KEY
    ensures !Taken(s.events, e)
  {
    ReachableIsSound(s);
    ReachableNeutralAlone(s, l);
    if Taken(s.events, e) {
      var f := TakenMeansIn(s.events, e);
    }
  }

  /** Evaluating a neutral ledger makes it count exactly when it was proposed in its window. */
  lemma EvaluationDecides(s: State, l: LedgerId)
    requires Reachable(s) && Neutral(s, l)
    ensures Latest(Evaluated(s, l).events, l).Some?
    ensures !Latest(Evaluated(s, l).events, l).value.reason.SchemaV7Attestation?
    ensures Counts(Evaluated(s, l).events, l) <==> InWindow(s.ledgers[l])
  {
    var e := EvaluationEvent(l, s.ledgers[l]);
    KeysDiffer();
    NeutralLeavesFree(s, l, e);
    EvaluatedAppends(s, l);
    LatestAppend(s.events, e, l);
  }

  lemma EvaluatedAppends(s: State, l: LedgerId)
    requires Neutral(s, l)
    ensures Evaluated(s, l).events == Append(s.events, EvaluationEvent(l, s.ledgers[l]))
  {
  }

  lemma KeysDiffer()
    ensures EVALUATION_KEY != INITIAL_KEY && EXCLUSION_KEY != INITIAL_KEY
  {
    assert |EVALUATION_KEY| != |INITIAL_KEY| && |EXCLUSION_KEY| != |INITIAL_KEY|;
  }

  /** Reconciling a neutral ledger makes it count exactly when it was proposed in its window and no
      stored result had been there at its proposal. */
  lemma ReconciliationDecides(s: State, l: LedgerId)
    requires Reachable(s) && Neutral(s, l)
    ensures Counts(Reconciled(s, l).events, l) <==> InWindow(s.ledgers[l]) && NoResultAtProposal(s, l)
  {
    if NoResultAtProposal(s, l) {
      EvaluationDecides(s, l);
    } else {
      KeysDiffer();
      NeutralLeavesFree(s, l, ExclusionEvent(l));
      ReachableExclusions(s);
      LatestIsIn(s.events, l);
      assert Orderly(Latest(s.events, l).value);
      LatestAppend(s.events, ExclusionEvent(l), l);
    }
  }

  lemma ReconciledIsReachable(s: State, l: LedgerId)
    requires Reachable(s)
    ensures Reachable(Next(s, Attest(l))) && Reachable(Next(Next(s, Attest(l)), Exclude(l)))
    ensures Reachable(Reconciled(s, l))
  {
    var s1 := Next(s, Attest(l));
    var s2 := Next(s1, Exclude(l));
    ReachableStep(s, Attest(l));
    ReachableStep(s1, Exclude(l));
    ReachableStep(s2, ReadNeutral(0, l));
    ReachableStep(Next(s2, ReadNeutral(0, l)), CommitEvaluation(0));
  }

  /** What a table says about a ledger does not change, except that events may be added to it. */
  predicate SaysSame(events: seq<Event>, after: seq<Event>, l: LedgerId, touched: bool) {
    && (!touched ==> Latest(after, l) == Latest(events, l))
    && (EverReinstated(events, l) ==> EverReinstated(after, l))
  }

  lemma AppendSaysSame(events: seq<Event>, e: Event, l: LedgerId)
    ensures SaysSame(events, Append(events, e), l, e.ledger == l)
  {
    LatestAppend(events, e, l);
    EverAppend(events, e, l);
  }

  /** The tables a reconciliation does not write. */
  predicate SameFacts(s: State, t: State) {
    t.ledgers == s.ledgers && t.draws == s.draws
  }

  lemma EvaluatedSaysSame(s: State, l: LedgerId, j: LedgerId)
    ensures SaysSame(s.events, Evaluated(s, l).events, j, l == j) && SameFacts(s, Evaluated(s, l))
  {
    if Neutral(s, l) {
      AppendSaysSame(s.events, EvaluationEvent(l, s.ledgers[l]), j);
    }
  }

  lemma AttestSaysSame(s: State, l: LedgerId, j: LedgerId)
    ensures SaysSame(s.events, Next(s, Attest(l)).events, j, l == j) && SameFacts(s, Next(s, Attest(l)))
  {
    if l in s.ledgers && Latest(s.events, l).None? {
      AppendSaysSame(s.events, AttestationEvent(l), j);
    }
  }

  lemma ExcludeSaysSame(s: State, l: LedgerId, j: LedgerId)
    ensures SaysSame(s.events, Next(s, Exclude(l)).events, j, l == j) && SameFacts(s, Next(s, Exclude(l)))
  {
    if l in s.ledgers && Violates(s, s.ledgers[l]) && NotExcluded(s.events, l) {
      AppendSaysSame(s.events, ExclusionEvent(l), j);
    }
  }

  lemma ReconcilingKeepsSettled(s: State, l: LedgerId, j: LedgerId)
    requires Reachable(s) && Settled(s, j)
    ensures Settled(Reconciled(s, l), j)
  {
    if l == j {
      ReconciledSettles(s, l);
    } else {
      var s1 := Next(s, Attest(l));
      AttestSaysSame(s, l, j);
      ExcludeSaysSame(s1, l, j);
      EvaluatedSaysSame(Next(s1, Exclude(l)), l, j);
    }
  }

  /** Evaluating leaves an excluded ledger excluded. */
  lemma EvaluationSparesExcluded(s: State, l: LedgerId)
    requires Reachable(s) && !NotExcluded(s.events, l)
    ensures Evaluated(s, l) == s
  {
    ReachableExclusions(s);
    LatestIsIn(s.events, l);
    assert Orderly(Latest(s.events, l).value);
  }

  lemma ReachableExclusions(s: State)
    requires Reachable(s)
    ensures ExclusionsSound(s)
  {
    var start, actions :| Migrated(start) && s == Run(start, actions);
    RunKeepsExclusions(start, actions);
  }

  lemma ReconciledIsDecided(s: State, l: LedgerId)
    requires Reachable(s) && l in s.ledgers
    ensures Latest(Reconciled(s, l).events, l).Some?
    ensures !Latest(Reconciled(s, l).events, l).value.reason.SchemaV7Attestation?
  {
    var s1 := Next(s, Attest(l));
    var s2 := Next(s1, Exclude(l));
    ReconciledIsReachable(s, l);
    HasEvents(s, l);
    ExcludeKeepsEvents(s1, l);
    if Neutral(s2, l) {
      EvaluationDecides(s2, l);
    }
  }

  lemma HasEvents(s: State, l: LedgerId)
    requires Reachable(s) && l in s.ledgers
    ensures Latest(s.events, l).Some? && Next(s, Attest(l)) == s
  {
    ReachableIsSound(s);
    assert Started(s.events, l);
    var f := TakenMeansIn(s.events, Event(AttestId(l), l, CREATION_KEY, true, PreDrawCapture));
    assert EventSound(s.ledgers, f);
    EventMeansLatest(s.events, f);
  }

  lemma ExcludeKeepsEvents(s: State, l: LedgerId)
    requires Latest(s.events, l).Some?
    ensures Latest(Next(s, Exclude(l)).events, l).Some? && Next(s, Exclude(l)).ledgers == s.ledgers
  {
    LatestAppend(s.events, ExclusionEvent(l), l);
  }

  lemma ReconciledSettles(s: State, l: LedgerId)
    requires Reachable(s)
    ensures Settled(Reconciled(s, l), l)
  {
    var t, s1 := Reconciled(s, l), Next(s, Attest(l));
    var s2 := Next(s1, Exclude(l));
    ReconciledIsReachable(s, l);
    AttestSaysSame(s, l, l);
    ExcludeSaysSame(s1, l, l);
    EvaluatedSaysSame(s2, l, l);
    if l in s.ledgers {
      ReconciledIsDecided(s, l);
    }
    if l in t.ledgers && Counts(t.events, l) {
      CountingMeansBeforeCutoff(t, l);
      if Violates(s1, s1.ledgers[l]) && !EverReinstated(s1.events, l) {
        ExclusionStandsUnlessReinstated(s1, l);
        EvaluationSparesExcluded(s2, l);
      }
    }
  }

  ghost predicate AllSettled(s: State, ids: seq<LedgerId>) {
    forall l :: l in ids ==> Settled(s, l)
  }

  /** Reachable, with the first `n` ledgers settled. */
  ghost predicate SettledUpTo(s: State, ids: seq<LedgerId>, n: nat)
    requires n <= |ids|
  {
    Reachable(s) && AllSettled(s, ids[..n])
  }

  lemma ReconcilingSettlesOneMore(s: State, ids: seq<LedgerId>, n: nat)
    requires n < |ids| && SettledUpTo(s, ids, n)
    ensures SettledUpTo(Reconciled(s, ids[n]), ids, n + 1)
  {
    var l := ids[n];
    ReconciledIsReachable(s, l);
    assert ids[..n + 1] == ids[..n] + [l];
    forall j | j in ids[..n] + [l] ensures Settled(Reconciled(s, l), j) {
      if j == l {
        ReconciledSettles(s, l);
      } else {
        ReconcilingKeepsSettled(s, l, j);
      }
    }
  }
}
