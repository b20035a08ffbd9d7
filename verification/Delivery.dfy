/** The delivery outbox: a leased work queue shared by any number of claimers and completers.
    Picks, alerts and graded results share this machine; a row with a grade is only handed out
    while the graded ledger counts as eligible. */
module Delivery {
  import opened Csv

  type Token = nat
  type DeliveryId = nat
  type GradeId = nat

  const DEAD_ATTEMPTS := 12
  const MAX_LOCAL_ATTEMPTS := 4
  const LEASE_MS := 1_800_000
  const RETRY_MS := 1_800_000

  datatype Status = Pending | Leased | Retry | Sent | Ambiguous | Dead

  predicate Final(s: Status) {
    s.Sent? || s.Ambiguous? || s.Dead?
  }

  /** `rank` is the position in hand-out order: urgent results, then alerts and picks, then
      ordinary results, each by creation. */
  datatype Row = Row(status: Status, attempts: nat, nextAt: nat, token: Option<Token>, expires: nat,
                     grade: Option<GradeId>, rank: nat)

  /** What the bridge reports; `attempts` is bounded by request validation. */
  datatype Verdict = WasSent | WasAmbiguous | WasFailed

  datatype Report = Report(token: Token, verdict: Verdict, attempts: nat)

  predicate ValidReport(r: Report) {
    r.attempts <= MAX_LOCAL_ATTEMPTS
  }

  datatype Attempt = Attempt(id: DeliveryId, token: Token, verdict: Verdict, local: nat)

  /** The latest eligibility event of a graded ledger. */
  datatype Decision = Eligible | Neutral | Excluded

  /** A completer that has read its row but not yet committed. */
  datatype Completer = Completer(id: DeliveryId, report: Report, seen: nat)

  datatype State = State(outbox: map<DeliveryId, Row>, log: seq<Attempt>, issued: set<Token>,
                         completers: map<nat, Completer>, decisions: map<GradeId, Decision>)

  const INITIAL := State(map[], [], {}, map[], map[])

  predicate GradeAllows(s: State, r: Row) {
    r.grade.None? || (r.grade.value in s.decisions && s.decisions[r.grade.value].Eligible?)
  }

  predicate Claimable(s: State, r: Row, now: nat) {
    && (r.status.Pending? || r.status.Retry? || (r.status.Leased? && r.expires <= now))
    && r.nextAt <= now && GradeAllows(s, r)
  }

  function Outcome(r: Report, total: nat): Status {
    match r.verdict
    case WasSent => Sent
    case WasAmbiguous => Ambiguous
    case WasFailed => if r.attempts == 0 || total >= DEAD_ATTEMPTS then Dead else Retry
  }

  function CompletedRow(row: Row, c: Completer, now: nat): Row {
    var total := c.seen + c.report.attempts;
    var status := Outcome(c.report, total);
    row.(status := status, attempts := total, token := None, expires := 0,
         nextAt := if status.Retry? then now + RETRY_MS else row.nextAt)
  }

  predicate Suppressed(s: State, r: Row) {
    (r.status.Pending? || r.status.Retry?) && r.grade.Some?
    && r.grade.value in s.decisions && s.decisions[r.grade.value].Excluded?
  }

  datatype Action =
    | Enqueue(id: DeliveryId, grade: Option<GradeId>, rank: nat, now: nat)
    | Requeue(id: DeliveryId, now: nat)
    | Decide(about: GradeId, decision: Decision)
    | Suppress
    | Claim(id: DeliveryId, tok: Token, now: nat)
    | Read(who: nat, id: DeliveryId, report: Report)
    | Commit(who: nat, now: nat)

  predicate CommitSucceeds(s: State, c: Completer) {
    && c.id in s.outbox
    && s.outbox[c.id].status.Leased? && s.outbox[c.id].token == Some(c.report.token)
  }

  function Next(s: State, a: Action): State {
    match a
    case Enqueue(id, grade, rank, now) =>
      if id in s.outbox then s
      else s.(outbox := s.outbox[id := Row(Pending, 0, now, None, 0, grade, rank)])
    case Requeue(id, now) =>
      if id in s.outbox && (s.outbox[id].status.Pending? || s.outbox[id].status.Retry?)
      then s.(outbox := s.outbox[id := s.outbox[id].(nextAt := now)]) else s
    case Decide(about, decision) => s.(decisions := s.decisions[about := decision])
    case Suppress =>
      s.(outbox := map id | id in s.outbox ::
           if Suppressed(s, s.outbox[id]) then s.outbox[id].(status := Dead) else s.outbox[id])
    case Claim(id, tok, now) =>
      if tok in s.issued || id !in s.outbox || !Claimable(s, s.outbox[id], now) then s
      else s.(issued := s.issued + {tok},
              outbox := s.outbox[id := s.outbox[id].(status := Leased, token := Some(tok), expires := now + LEASE_MS)])
    case Read(who, id, report) =>
      if ValidReport(report) && id in s.outbox && s.outbox[id].status.Leased?
         && s.outbox[id].token == Some(report.token)
      then s.(completers := s.completers[who := Completer(id, report, s.outbox[id].attempts)])
      else s
    case Commit(who, now) =>
      if who !in s.completers then s
      else
        var c := s.completers[who];
        var t := s.(completers := s.completers - {who});
        if CommitSucceeds(s, c)
        then t.(outbox := s.outbox[c.id := CompletedRow(s.outbox[c.id], c, now)],
                log := s.log + [Attempt(c.id, c.report.token, c.report.verdict, c.report.attempts)])
        else t
  }

  function Run(s: State, actions: seq<Action>): State {
    if actions == [] then s else Next(Run(s, actions[..|actions| - 1]), actions[|actions| - 1])
  }

  // ---- what the log says ----

  function LoggedAttempts(log: seq<Attempt>, id: DeliveryId): nat {
    if log == [] then 0
    else LoggedAttempts(log[..|log| - 1], id) + (if log[|log| - 1].id == id then log[|log| - 1].local else 0)
  }

  function Results(log: seq<Attempt>, id: DeliveryId): nat {
    if log == [] then 0
    else Results(log[..|log| - 1], id) + (if log[|log| - 1].id == id then 1 else 0)
  }

  lemma LogGrows(log: seq<Attempt>, e: Attempt, id: DeliveryId)
    ensures LoggedAttempts(log + [e], id) == LoggedAttempts(log, id) + (if e.id == id then e.local else 0)
    ensures Results(log + [e], id) == Results(log, id) + (if e.id == id then 1 else 0)
  {
    assert (log + [e])[..|log|] == log;
  }

  predicate InLog(log: seq<Attempt>, tok: Token) {
    exists i :: 0 <= i < |log| && log[i].token == tok
  }

  // ---- invariants ----

  /** A row and what is logged for it. */
  ghost predicate RowSound(s: State, id: DeliveryId, r: Row) {
    && (r.status.Leased? <==> r.token.Some?)
    && (r.token.Some? ==> r.token.value in s.issued)
    && r.attempts == LoggedAttempts(s.log, id)
    && (if Final(r.status)
        then r.attempts <= DEAD_ATTEMPTS + MAX_LOCAL_ATTEMPTS - 1 && Results(s.log, id) <= DEAD_ATTEMPTS
        else r.attempts < DEAD_ATTEMPTS && Results(s.log, id) <= r.attempts)
  }

  ghost predicate RowsSound(s: State) {
    forall id :: id in s.outbox ==> RowSound(s, id, s.outbox[id])
  }

  ghost predicate UnqueuedIsUnlogged(s: State) {
    forall id :: id !in s.outbox ==> LoggedAttempts(s.log, id) == 0 && Results(s.log, id) == 0
  }

  /** A completer holds a valid report, and while its lease stands the count it read stands. */
  ghost predicate CompletersSound(s: State) {
    forall who :: who in s.completers ==> CompleterSound(s, s.completers[who])
  }

  predicate ShareToken(r: Row, q: Row) {
    r.token.Some? && r.token == q.token
  }

  /** A token that committed is on no row any more, and tokens sit on one row each. */
  ghost predicate TokensSound(s: State) {
    && (forall i :: 0 <= i < |s.log| ==> s.log[i].token in s.issued)
    && (forall i, id :: 0 <= i < |s.log| && id in s.outbox ==> s.outbox[id].token != Some(s.log[i].token))
    && (forall i, j :: 0 <= i < j < |s.log| ==> s.log[i].token != s.log[j].token)
    && (forall a, b :: a in s.outbox && b in s.outbox && ShareToken(s.outbox[a], s.outbox[b]) ==> a == b)
  }

  ghost predicate Sound(s: State) {
    RowsSound(s) && UnqueuedIsUnlogged(s) && CompletersSound(s) && TokensSound(s)
  }

  lemma CommitKeepsRows(s: State, who: nat, now: nat)
    requires Sound(s) && who in s.completers && CommitSucceeds(s, s.completers[who])
    ensures RowsSound(Next(s, Commit(who, now))) && UnqueuedIsUnlogged(Next(s, Commit(who, now)))
  {
    var c, t := s.completers[who], Next(s, Commit(who, now));
    var e := Attempt(c.id, c.report.token, c.report.verdict, c.report.attempts);
    forall id ensures id in t.outbox ==> RowSound(t, id, t.outbox[id])
              ensures id !in t.outbox ==> LoggedAttempts(t.log, id) == 0 && Results(t.log, id) == 0
    {
      LogGrows(s.log, e, id);
      if id in t.outbox {
        assert RowSound(s, id, s.outbox[id]);
      }
    }
  }

  lemma CommitKeepsTokens(s: State, who: nat, now: nat)
    requires Sound(s) && who in s.completers && CommitSucceeds(s, s.completers[who])
    ensures TokensSound(Next(s, Commit(who, now)))
  {
  }

  predicate Commits(s: State, a: Action) {
    a.Commit? && a.who in s.completers && CommitSucceeds(s, s.completers[a.who])
  }

  lemma QuietStepKeepsRow(s: State, a: Action, id: DeliveryId)
    requires RowsSound(s) && UnqueuedIsUnlogged(s) && !Commits(s, a) && id in Next(s, a).outbox
    ensures RowSound(Next(s, a), id, Next(s, a).outbox[id])
  {
    assert id in s.outbox ==> RowSound(s, id, s.outbox[id]);
  }

  lemma QuietStepKeepsLog(s: State, a: Action)
    requires !Commits(s, a)
    ensures Next(s, a).log == s.log && s.outbox.Keys <= Next(s, a).outbox.Keys && s.issued <= Next(s, a).issued
  {
  }

  lemma QuietStepKeepsRows(s: State, a: Action)
    requires RowsSound(s) && UnqueuedIsUnlogged(s) && !Commits(s, a)
    ensures RowsSound(Next(s, a)) && UnqueuedIsUnlogged(Next(s, a))
  {
    QuietStepKeepsLog(s, a);
    forall id | id in Next(s, a).outbox ensures RowSound(Next(s, a), id, Next(s, a).outbox[id]) {
      QuietStepKeepsRow(s, a, id);
    }
  }

  /** A claim puts its token on its row; no other quiet step puts a token anywhere. */
  predicate TokenCameFrom(s: State, a: Action, id: DeliveryId, tok: Option<Token>) {
    || tok.None?
    || (id in s.outbox && s.outbox[id].token == tok)
    || (a.Claim? && a.id == id && tok == Some(a.tok) && a.tok !in s.issued)
  }

  lemma QuietStepTokens(s: State, a: Action, id: DeliveryId)
    requires !Commits(s, a) && id in Next(s, a).outbox
    ensures TokenCameFrom(s, a, id, Next(s, a).outbox[id].token)
  {
  }

  lemma QuietStepKeepsTokens(s: State, a: Action)
    requires RowsSound(s) && TokensSound(s) && !Commits(s, a)
    ensures TokensSound(Next(s, a)) && s.issued <= Next(s, a).issued
  {
    QuietStepKeepsLog(s, a);
    forall id | id in Next(s, a).outbox ensures TokenCameFrom(s, a, id, Next(s, a).outbox[id].token) {
      QuietStepTokens(s, a, id);
    }
    assert forall id :: id in s.outbox ==> RowSound(s, id, s.outbox[id]);
  }

  predicate CompleterSound(s: State, c: Completer) {
    && ValidReport(c.report) && c.report.token in s.issued
    && (CommitSucceeds(s, c) ==> s.outbox[c.id].attempts == c.seen)
  }

  lemma StepKeepsCompleter(s: State, a: Action, who: nat)
    requires RowsSound(s) && TokensSound(s) && CompletersSound(s) && who in Next(s, a).completers
    ensures CompleterSound(Next(s, a), Next(s, a).completers[who])
  {
    var c := Next(s, a).completers[who];
    assert c.id in s.outbox ==> RowSound(s, c.id, s.outbox[c.id]);
    assert who in s.completers ==> CompleterSound(s, s.completers[who]);
  }

  lemma StepKeepsCompleters(s: State, a: Action)
    requires RowsSound(s) && TokensSound(s) && CompletersSound(s)
    ensures CompletersSound(Next(s, a))
  {
    forall who | who in Next(s, a).completers ensures CompleterSound(Next(s, a), Next(s, a).completers[who]) {
      StepKeepsCompleter(s, a, who);
    }
  }

  lemma StepKeepsSound(s: State, a: Action)
    requires Sound(s)
    ensures Sound(Next(s, a))
  {
    StepKeepsCompleters(s, a);
    if Commits(s, a) {
      CommitKeepsRows(s, a.who, a.now);
      CommitKeepsTokens(s, a.who, a.now);
    } else {
      QuietStepKeepsRows(s, a);
      QuietStepKeepsTokens(s, a);
    }
  }

  lemma {:induction false} RunIsSound(s: State, actions: seq<Action>)
    requires Sound(s)
    ensures Sound(Run(s, actions))
  {
    if actions != [] {
      RunIsSound(s, actions[..|actions| - 1]);
      StepKeepsSound(Run(s, actions[..|actions| - 1]), actions[|actions| - 1]);
    }
  }

  // ---- what every interleaving guarantees ----

  ghost predicate Reachable(s: State) {
    exists actions :: s == Run(INITIAL, actions)
  }

  lemma ReachableIsSound(s: State)
    requires Reachable(s)
    ensures Sound(s)
  {
    var actions :| s == Run(INITIAL, actions);
    RunIsSound(INITIAL, actions);
  }

  /** A delivery is leased exactly when it carries a token, and no two deliveries carry the
      same one. */
  lemma LeasedExactlyWithToken(s: State, id: DeliveryId, other: DeliveryId)
    requires Reachable(s) && id in s.outbox && other in s.outbox
    ensures s.outbox[id].status.Leased? <==> s.outbox[id].token.Some?
    ensures id != other && s.outbox[id].status.Leased? ==> s.outbox[id].token != s.outbox[other].token
  {
    ReachableIsSound(s);
    assert RowSound(s, id, s.outbox[id]);
  }

  /** The attempt count is the sum of the logged local attempts and at most 15; at most 12
      results are ever committed for a delivery, each under its own token. */
  lemma AttemptsAreAccountedFor(s: State, id: DeliveryId)
    requires Reachable(s) && id in s.outbox
    ensures s.outbox[id].attempts == LoggedAttempts(s.log, id) <= 15
    ensures Results(s.log, id) <= 12
    ensures forall i, j :: 0 <= i < j < |s.log| ==> s.log[i].token != s.log[j].token
  {
    ReachableIsSound(s);
    assert RowSound(s, id, s.outbox[id]);
  }

  /** Sent, ambiguous and dead are never left: the row is frozen for good. */
  lemma {:induction false} FinalIsForever(s: State, more: seq<Action>, id: DeliveryId)
    requires id in s.outbox && Final(s.outbox[id].status)
    ensures id in Run(s, more).outbox && Run(s, more).outbox[id] == s.outbox[id]
  {
    if more != [] {
      FinalIsForever(s, more[..|more| - 1], id);
    }
  }

  /** Issued, and on no row. */
  ghost predicate Spent(s: State, tok: Token) {
    tok in s.issued && forall id :: id in s.outbox ==> s.outbox[id].token != Some(tok)
  }

  /** A leased delivery is handed out again only once its lease has expired, and then the
      superseded token is spent. */
  lemma ReclaimSpendsToken(s: State, id: DeliveryId, tok: Token, now: nat)
    requires Reachable(s) && id in s.outbox && s.outbox[id].token.Some?
    requires Next(s, Claim(id, tok, now)) != s
    ensures s.outbox[id].expires <= now
    ensures Spent(Next(s, Claim(id, tok, now)), s.outbox[id].token.value)
  {
    ReachableIsSound(s);
    assert RowSound(s, id, s.outbox[id]);
  }

  lemma SpentStep(s: State, a: Action, tok: Token)
    requires Spent(s, tok)
    ensures Spent(Next(s, a), tok)
    ensures InLog(Next(s, a).log, tok) ==> InLog(s.log, tok)
  {
    var t := Next(s, a);
    if InLog(t.log, tok) {
      var i :| 0 <= i < |t.log| && t.log[i].token == tok;
      assert i < |s.log|;
      assert s.log[i] == t.log[i];
    }
  }

  /** A spent token can never commit a result, whoever still presents it. */
  lemma {:induction false} SpentNeverCommits(s: State, more: seq<Action>, tok: Token)
    requires Spent(s, tok)
    ensures Spent(Run(s, more), tok)
    ensures InLog(Run(s, more).log, tok) ==> InLog(s.log, tok)
  {
    if more != [] {
      SpentNeverCommits(s, more[..|more| - 1], tok);
      SpentStep(Run(s, more[..|more| - 1]), more[|more| - 1], tok);
    }
  }

  // ---- statuses follow reports ----

  /** The last result committed for a delivery. */
  function LastResult(log: seq<Attempt>, id: DeliveryId): Option<Attempt> {
    if log == [] then None
    else if log[|log| - 1].id == id then Some(log[|log| - 1])
    else LastResult(log[..|log| - 1], id)
  }

  /** A failure after which there is no retry: nothing was tried, or twelve tries were used up. */
  predicate GivesUp(e: Attempt, attempts: nat) {
    e.verdict.WasFailed? && (e.local == 0 || attempts >= 12)
  }

  /** What a row's status says about the last report. */
  predicate FollowsReport(r: Row, last: Option<Attempt>) {
    && (r.status.Sent? <==> last.Some? && last.value.verdict.WasSent?)
    && (r.status.Ambiguous? <==> last.Some? && last.value.verdict.WasAmbiguous?)
    && (last.Some? && GivesUp(last.value, r.attempts) ==> r.status.Dead?)
    && (r.status.Dead? ==> (last.Some? && GivesUp(last.value, r.attempts)) || r.grade.Some?)
    && (r.status.Retry? ==> last.Some? && last.value.verdict.WasFailed?)
    && (r.status.Pending? ==> last.None?)
  }

  lemma LastResultAppend(log: seq<Attempt>, e: Attempt, id: DeliveryId)
    ensures LastResult(log + [e], id) == if e.id == id then Some(e) else LastResult(log, id)
  {
    assert (log + [e])[..|log|] == log;
  }

  lemma {:induction false} NoResultsNoLast(log: seq<Attempt>, id: DeliveryId)
    requires Results(log, id) == 0
    ensures LastResult(log, id) == None
  {
    if log != [] {
      NoResultsNoLast(log[..|log| - 1], id);
    }
  }

  lemma CommitFollowsReport(s: State, a: Action, id: DeliveryId)
    requires Commits(s, a) && id in s.outbox && FollowsReport(s.outbox[id], LastResult(s.log, id))
    ensures FollowsReport(Next(s, a).outbox[id], LastResult(Next(s, a).log, id))
  {
    var c := s.completers[a.who];
    LastResultAppend(s.log, Attempt(c.id, c.report.token, c.report.verdict, c.report.attempts), id);
  }

  lemma QuietFollowsReport(s: State, a: Action, id: DeliveryId)
    requires UnqueuedIsUnlogged(s) && !Commits(s, a) && id in Next(s, a).outbox
    requires id in s.outbox ==> FollowsReport(s.outbox[id], LastResult(s.log, id))
    ensures FollowsReport(Next(s, a).outbox[id], LastResult(s.log, id))
  {
    if id !in s.outbox {
      NoResultsNoLast(s.log, id);
    }
  }

  /** In every run a delivery is sent exactly when the last result committed for it was a sent report,
      ambiguous exactly when that was ambiguous, and dead when that was a failure that gives up;
      otherwise it is dead only if it reports a grade, and it waits for a retry only after a failure. */
  lemma {:induction false} StatusFollowsReport(actions: seq<Action>, id: DeliveryId)
    requires id in Run(INITIAL, actions).outbox
    ensures FollowsReport(Run(INITIAL, actions).outbox[id], LastResult(Run(INITIAL, actions).log, id))
  {
    if actions != [] {
      var front, a := actions[..|actions| - 1], actions[|actions| - 1];
      var s := Run(INITIAL, front);
      RunIsSound(INITIAL, front);
      if id in s.outbox {
        StatusFollowsReport(front, id);
      }
      if Commits(s, a) {
        CommitFollowsReport(s, a, id);
      } else {
        QuietStepKeepsLog(s, a);
        QuietFollowsReport(s, a, id);
      }
    }
  }

  /** A claim takes effect exactly when its token is new and the row is due: waiting, or leased with an
      expired lease, and not reporting a grade that does not count. The lease lasts half an hour. */
  lemma ClaimTakesExactly(s: State, id: DeliveryId, tok: Token, now: nat)
    ensures var t := Next(s, Claim(id, tok, now));
      t != s <==>
        && tok !in s.issued && id in s.outbox && s.outbox[id].nextAt <= now
        && (match s.outbox[id].status
            case Pending => true case Retry => true case Leased => s.outbox[id].expires <= now case _ => false)
        && (s.outbox[id].grade.Some? ==>
              s.outbox[id].grade.value in s.decisions && s.decisions[s.outbox[id].grade.value] == Eligible)
    ensures var t := Next(s, Claim(id, tok, now));
      t != s ==> id in t.outbox && t.outbox[id].status == Leased && t.outbox[id].token == Some(tok)
                 && t.outbox[id].expires == now + 1_800_000
  {
    assert tok in s.issued + {tok};
  }

  /** Suppression ends exactly the waiting deliveries whose grade was excluded. */
  lemma SuppressEndsExactly(s: State, id: DeliveryId)
    requires id in s.outbox
    ensures id in Next(s, Suppress).outbox
    ensures var r, q := s.outbox[id], Next(s, Suppress).outbox[id];
      && q == r.(status := q.status)
      && (q.status != r.status <==>
            (r.status == Pending || r.status == Retry) && r.grade.Some?
            && r.grade.value in s.decisions && s.decisions[r.grade.value] == Excluded)
      && (q.status != r.status ==> q.status == Dead)
  {
  }

  /** A new delivery without a grade can be claimed at once, and so can a waiting one put back. */
  lemma WaitingCanBeClaimed(s: State, id: DeliveryId, rank: nat, tok: Token, now: nat)
    requires tok !in s.issued
    requires id in s.outbox ==>
      s.outbox[id].grade == None && (s.outbox[id].status == Pending || s.outbox[id].status == Retry)
    ensures var t := Next(s, if id in s.outbox then Requeue(id, now) else Enqueue(id, None, rank, now));
      id in t.outbox && t.outbox[id].attempts == (if id in s.outbox then s.outbox[id].attempts else 0)
      && Next(t, Claim(id, tok, now)) != t
  {
    var t := Next(s, if id in s.outbox then Requeue(id, now) else Enqueue(id, None, rank, now));
    ClaimTakesExactly(t, id, tok, now);
  }
}
