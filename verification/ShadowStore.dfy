/** The shadow tables and the calls that change them, each shown against the steps it takes. */
module ShadowStore {
  import opened Csv
  import opened Draws
  import opened Eligibility
  import Shadow

  /** A candidate with the score its arms get. */
  datatype Candidate = Candidate(trial: Shadow.TrialId, arms: string, pending: bool)

  class Trials {
    var trials: map<Shadow.TrialId, Shadow.Trial>
    var grades: seq<Shadow.GradeId>
    var events: seq<Event>
    var draws: map<Key, Draw>

    ghost function View(): Shadow.State
      reads this
    {
      Shadow.State.State(trials, grades, events, draws, map[])
    }

    constructor ()
      ensures View() == Shadow.INITIAL
    {
      trials, grades, events, draws := map[], [], [], map[];
    }

    /** Captures one variant of a run whose ledgers count, while sales are open. */
    method CaptureTrial(id: Shadow.TrialId, parent: LedgerId, baseline: LedgerId, key: Key, start: Moment, now: Moment)
      returns (created: bool)
      modifies this`trials
      ensures View() == Shadow.Next(Shadow.Next(old(View()), Shadow.ReadParents(0, id, parent, baseline, key, start)),
                                    Shadow.CommitCapture(0, now))
      ensures created <==>
        && id !in old(trials) && key !in draws && Counts(events, parent) && Counts(events, baseline)
        && Shadow.BeforeCutoff(key, start) && Shadow.BeforeCutoff(key, now)
      ensures trials == if created then old(trials)[id := Shadow.Trial(parent, baseline, key, now)] else old(trials)
    {
      if id in trials || !Counts(events, parent) || !Counts(events, baseline)
         || !Shadow.BeforeCutoff(key, start) || key in draws
      {
        return false;
      }
      created := Shadow.BeforeCutoff(key, now);
      if created {
        trials := trials[id := Shadow.Trial(parent, baseline, key, now)];
      }
    }

    /** Reads a trial with everything its grade depends on and appends the grade if it is news. */
    method GradeTrial(c: Candidate) returns (created: bool)
      modifies this`grades
      ensures View() == Graded(old(View()), c)
      ensures |grades| == |old(grades)| + (if created then 1 else 0) && grades[..|old(grades)|] == old(grades)
      ensures Shadow.Chained(old(grades)) ==> UpToDate(View(), c)
    {
      if Shadow.Chained(grades) {
        GradedIsUpToDate(View(), c);
      }
      if c.trial !in trials {
        return false;
      }
      var t := trials[c.trial];
      var e, b := Latest(events, t.parent), Latest(events, t.baseline);
      if e.None? || b.None? {
        return false;
      }
      var op := Shadow.Scoring(c.trial, Shadow.LatestGrade(grades, c.trial), e.value, b.value,
                               Shadow.ActiveDraw(draws, t.key));
      var outcome := Shadow.OutcomeOf(t, op, c.arms, c.pending);
      var g := Shadow.GradeId.GradeId(c.trial, op.previous, outcome);
      created := (op.previous.None? || op.previous.value.outcome != outcome) && g !in grades;
      if created {
        grades := grades + [g];
      }
    }

    /** Grades every candidate in turn and counts the grades it adds. Old grades stay, and afterwards
        every candidate's latest grade says what the tables and its score say. */
    method GradeShadowTrials(candidates: seq<Candidate>) returns (created: nat)
      requires Shadow.Reachable(View())
      modifies this`grades
      ensures Shadow.Reachable(View())
      ensures |grades| == |old(grades)| + created && grades[..|old(grades)|] == old(grades)
      ensures DistinctTrials(candidates) ==> forall c :: c in candidates ==> UpToDate(View(), c)
    {
      created := 0;
      for i := 0 to |candidates|
        invariant Shadow.Reachable(View())
        invariant |grades| == |old(grades)| + created && grades[..|old(grades)|] == old(grades)
        invariant DistinctTrials(candidates) ==> AllUpToDate(View(), candidates[..i])
      {
        ghost var before := View();
        var news := GradeTrial(candidates[i]);
        GradedIsReachable(before, candidates[i]);
        if DistinctTrials(candidates) {
          OneMoreUpToDate(before, candidates, i);
        }
        created := created + if news then 1 else 0;
      }
      assert candidates[..|candidates|] == candidates;
    }
  }

  /** The read and the commit, undisturbed. */
  function Graded(s: Shadow.State, c: Candidate): Shadow.State {
    if 0 in s.ops then s
    else Shadow.Next(Shadow.Next(s, Shadow.ReadTrial(0, c.trial)), Shadow.CommitGrade(0, c.arms, c.pending))
  }

  lemma ReachableStep(s: Shadow.State, a: Shadow.Action)
    requires Shadow.Reachable(s)
    ensures Shadow.Reachable(Shadow.Next(s, a))
  {
    var actions :| s == Shadow.Run(Shadow.INITIAL, actions);
    assert (actions + [a])[..|actions|] == actions;
    assert Shadow.Next(s, a) == Shadow.Run(Shadow.INITIAL, actions + [a]);
  }

  lemma GradedIsReachable(s: Shadow.State, c: Candidate)
    requires Shadow.Reachable(s)
    ensures Shadow.Reachable(Graded(s, c))
    ensures |s.grades| <= |Graded(s, c).grades| && Graded(s, c).grades[..|s.grades|] == s.grades
  {
    ReachableStep(s, Shadow.ReadTrial(0, c.trial));
    ReachableStep(Shadow.Next(s, Shadow.ReadTrial(0, c.trial)), Shadow.CommitGrade(0, c.arms, c.pending));
  }

  // ---- what grading leaves behind ----

  /** The trial can be looked at: it exists and both of its ledgers have events. */
  predicate Readable(s: Shadow.State, id: Shadow.TrialId) {
    id in s.trials && Latest(s.events, s.trials[id].parent).Some? && Latest(s.events, s.trials[id].baseline).Some?
  }

  /** What the tables and the score say about a trial now. */
  function Says(s: Shadow.State, c: Candidate): Shadow.Outcome
    requires Readable(s, c.trial)
  {
    var t := s.trials[c.trial];
    Shadow.OutcomeOf(t, Shadow.Scoring(c.trial, None, Latest(s.events, t.parent).value,
                                       Latest(s.events, t.baseline).value, Shadow.ActiveDraw(s.draws, t.key)),
                     c.arms, c.pending)
  }

  /** The latest grade of a readable trial is judged by the tables as they are, with this score. */
  predicate UpToDate(s: Shadow.State, c: Candidate) {
    Readable(s, c.trial) ==>
      var g := Shadow.LatestGrade(s.grades, c.trial);
      g.Some? && Shadow.Judged(s, s.trials[c.trial], g.value.outcome, c.arms, c.pending)
  }

  lemma SaysIsJudged(s: Shadow.State, c: Candidate)
    requires Readable(s, c.trial)
    ensures Shadow.Judged(s, s.trials[c.trial], Says(s, c), c.arms, c.pending)
  {
  }

  ghost predicate AllUpToDate(s: Shadow.State, candidates: seq<Candidate>) {
    forall c :: c in candidates ==> UpToDate(s, c)
  }

  predicate DistinctTrials(candidates: seq<Candidate>) {
    forall i, j :: 0 <= i < j < |candidates| ==> candidates[i].trial != candidates[j].trial
  }

  lemma LatestAfter(grades: seq<Shadow.GradeId>, g: Shadow.GradeId, id: Shadow.TrialId)
    ensures Shadow.LatestGrade(grades + [g], id) == if g.trial == id then Some(g) else Shadow.LatestGrade(grades, id)
  {
    assert (grades + [g])[..|grades|] == grades;
  }

  /** A chain does not hold a successor of its latest grade. */
  lemma SuccessorIsNew(grades: seq<Shadow.GradeId>, g: Shadow.GradeId)
    requires Shadow.Chained(grades) && g.previous == Shadow.LatestGrade(grades, g.trial)
    ensures g !in grades
  {
    if g in grades {
      var i :| 0 <= i < |grades| && grades[i] == g;
      Shadow.LatestIsDeepest(grades, i);
    }
  }

  /** The grade a readable trial would get now. */
  function Successor(s: Shadow.State, c: Candidate): Shadow.GradeId
    requires Readable(s, c.trial)
  {
    Shadow.GradeId.GradeId(c.trial, Shadow.LatestGrade(s.grades, c.trial), Says(s, c))
  }

  /** It says what the latest grade says already. */
  predicate NoNews(g: Shadow.GradeId) {
    g.previous.Some? && g.previous.value.outcome == g.outcome
  }

  predicate SameButGrades(s: Shadow.State, t: Shadow.State) {
    t.trials == s.trials && t.events == s.events && t.draws == s.draws && t.ops == s.ops
  }

  lemma UnreadableIsSpared(s: Shadow.State, c: Candidate)
    requires s.ops == map[] && !Readable(s, c.trial)
    ensures Graded(s, c) == s
  {
  }

  lemma ReadableIsGraded(s: Shadow.State, c: Candidate)
    requires s.ops == map[] && Readable(s, c.trial) && Successor(s, c) !in s.grades
    ensures SameButGrades(s, Graded(s, c))
    ensures Graded(s, c).grades == if NoNews(Successor(s, c)) then s.grades else s.grades + [Successor(s, c)]
  {
    var r := Shadow.Next(s, Shadow.ReadTrial(0, c.trial));
    assert r.ops[0].Scoring? && r.ops - {0} == map[];
  }

  /** Grading a trial touches nothing but its grades, and adds at most one. */
  lemma GradedAdds(s: Shadow.State, c: Candidate)
    requires s.ops == map[] && Shadow.Chained(s.grades)
    ensures SameButGrades(s, Graded(s, c))
    ensures Graded(s, c).grades
            == if !Readable(s, c.trial) || NoNews(Successor(s, c)) then s.grades else s.grades + [Successor(s, c)]
  {
    if Readable(s, c.trial) {
      SuccessorIsNew(s.grades, Successor(s, c));
      ReadableIsGraded(s, c);
    } else {
      UnreadableIsSpared(s, c);
    }
  }

  lemma GradedIsUpToDate(s: Shadow.State, c: Candidate)
    requires s.ops == map[] && Shadow.Chained(s.grades)
    ensures UpToDate(Graded(s, c), c)
  {
    GradedAdds(s, c);
    if Readable(s, c.trial) {
      LatestAfter(s.grades, Successor(s, c), c.trial);
      SaysIsJudged(s, c);
    }
  }

  lemma GradingSparesOthers(s: Shadow.State, c: Candidate, d: Candidate)
    requires s.ops == map[] && Shadow.Chained(s.grades) && c.trial != d.trial && UpToDate(s, d)
    ensures UpToDate(Graded(s, c), d)
  {
    GradedAdds(s, c);
    if Readable(s, c.trial) {
      LatestAfter(s.grades, Successor(s, c), d.trial);
    }
  }

  lemma OneMoreUpToDate(s: Shadow.State, candidates: seq<Candidate>, n: nat)
    requires Shadow.Reachable(s) && s.ops == map[] && n < |candidates| && DistinctTrials(candidates)
    requires AllUpToDate(s, candidates[..n])
    ensures AllUpToDate(Graded(s, candidates[n]), candidates[..n + 1])
  {
    Shadow.ReachableIsSound(s);
    GradedIsUpToDate(s, candidates[n]);
    forall i | 0 <= i < n ensures UpToDate(Graded(s, candidates[n]), candidates[i]) {
      assert candidates[i] in candidates[..n];
      GradingSparesOthers(s, candidates[n], candidates[i]);
    }
    assert candidates[..n + 1] == candidates[..n] + [candidates[n]];
  }
}
