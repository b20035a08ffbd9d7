/**
 * Generation: one run per game and draw date, worked on by scheduled ticks and manual requests that
 * may overlap, throw at any point or die. A tick chooses a game, takes its lease, and records a
 * success or a failure.
 */
module Generation {
  import opened Csv
  import opened Draws

  const MAX_PIPELINE_ATTEMPTS := 3
  const LEASE_MS := 15 * 60_000
  const RETRY_MS := 60_000

  datatype Slot = Slot(game: Game, day: Day)

  datatype Status = Failed | Generated

  datatype Record = Record(status: Status, attempts: nat, retryAt: Option<int>)

  datatype Lease = Lease(token: nat, expires: int)

  /** A tick in progress: it has a game, holds its lease, has counted an attempt that failed, has
      recorded something and is still inside the pipeline, or has recorded from the error handler. */
  datatype Worker =
    | Chosen(slot: Slot)
    | Holding(slot: Slot, token: nat)
    | Failing(slot: Slot, token: nat, attempts: nat, terminal: bool, caught: bool)
    | Recorded(slot: Slot, token: nat)
    | Finished(slot: Slot, token: nat)

  datatype State = State(runs: map<Slot, Record>, alerts: set<Slot>, picks: set<Slot>,
                         leases: map<Slot, Lease>, issued: set<nat>, workers: map<nat, Worker>)

  const INITIAL := State(map[], {}, {}, map[], {}, map[])

  // ---- which game a tick works on ----

  predicate Retryable(runs: map<Slot, Record>, slot: Slot, now: int) {
    && slot in runs && runs[slot].status.Failed? && runs[slot].attempts < MAX_PIPELINE_ATTEMPTS
    && runs[slot].retryAt.Some? && runs[slot].retryAt.value <= now
  }

  function FirstUnattempted(runs: map<Slot, Record>, day: Day, due: seq<Game>): Option<Slot> {
    if due == [] then None
    else if Slot(due[0], day) !in runs then Some(Slot(due[0], day))
    else FirstUnattempted(runs, day, due[1..])
  }

  function FirstRetryable(runs: map<Slot, Record>, day: Day, due: seq<Game>, now: int): Option<Slot> {
    if due == [] then None
    else if Retryable(runs, Slot(due[0], day), now) then Some(Slot(due[0], day))
    else FirstRetryable(runs, day, due[1..], now)
  }

  function Choice(runs: map<Slot, Record>, day: Day, due: seq<Game>, now: int): Option<Slot> {
    var first := FirstUnattempted(runs, day, due);
    if first.Some? then first else FirstRetryable(runs, day, due, now)
  }

  // ---- what a tick records ----

  function FailedRun(before: Option<Record>, attempts: nat, terminal: bool, now: int): Record {
    if before.Some? && before.value.status.Generated? then before.value
    else Record(Failed, attempts, if terminal then None else Some(now + RETRY_MS))
  }

  function GeneratedRun(before: Option<Record>): Record {
    if before.None? then Record(Generated, 1, None)
    else if before.value.status.Generated? then before.value
    else Record(Generated, before.value.attempts + 1, None)
  }

  function RecordOf(s: State, slot: Slot): Option<Record> {
    if slot in s.runs then Some(s.runs[slot]) else None
  }

  function AttemptsOf(s: State, slot: Slot): nat {
    if slot in s.runs then s.runs[slot].attempts else 0
  }

  predicate LeaseFree(s: State, slot: Slot, now: int) {
    slot in s.leases ==> s.leases[slot].expires <= now
  }

  predicate IsGenerated(s: State, slot: Slot) {
    slot in s.runs && s.runs[slot].status.Generated?
  }

  /** `Release` is the pipeline's final block, which runs however the tick ended; a tick that dies
      leaves its lease to expire. `caught` tells the error handler from the pipeline itself. */
  datatype Action =
    | Choose(who: nat, day: Day, due: seq<Game>, now: int)
    | Request(who: nat, slot: Slot)
    | Acquire(who: nat, tok: nat, now: int)
    | ReadAttempts(who: nat, missedDeadline: bool, caught: bool)
    | CommitFailure(who: nat, now: int)
    | CommitSuccess(who: nat, late: bool)
    | Release(who: nat)
    | Die(who: nat)

  /** A failure is counted by the pipeline before its work, or by the error handler after any throw,
      also one that follows a recorded batch. */
  predicate CanCount(w: Worker, caught: bool) {
    w.Holding? || (w.Recorded? && caught)
  }

  function Leave(s: State, who: nat): State {
    s.(workers := s.workers - {who})
  }

  function Unleased(s: State, slot: Slot, tok: nat): map<Slot, Lease> {
    if slot in s.leases && s.leases[slot].token == tok then s.leases - {slot} else s.leases
  }

  function Next(s: State, a: Action): State {
    match a
    case Choose(who, day, due, now) =>
      var c := Choice(s.runs, day, due, now);
      if who in s.workers || c.None? then s else s.(workers := s.workers[who := Chosen(c.value)])
    case Request(who, slot) =>
      if who in s.workers || IsGenerated(s, slot) then s else s.(workers := s.workers[who := Chosen(slot)])
    case Acquire(who, tok, now) =>
      if who !in s.workers || !s.workers[who].Chosen? || tok in s.issued then s
      else
        var slot := s.workers[who].slot;
        if !LeaseFree(s, slot, now) then Leave(s, who)
        else s.(leases := s.leases[slot := Lease(tok, now + LEASE_MS)], issued := s.issued + {tok},
                workers := s.workers[who := Holding(slot, tok)])
    case ReadAttempts(who, missedDeadline, caught) =>
      if who !in s.workers || !CanCount(s.workers[who], caught) then s
      else
        var w := s.workers[who];
        var attempts := AttemptsOf(s, w.slot) + 1;
        s.(workers := s.workers[who := Failing(w.slot, w.token, attempts,
                                               missedDeadline || attempts >= MAX_PIPELINE_ATTEMPTS, caught)])
    case CommitFailure(who, now) =>
      if who !in s.workers || !s.workers[who].Failing? then s
      else
        var w := s.workers[who];
        s.(runs := s.runs[w.slot := FailedRun(RecordOf(s, w.slot), w.attempts, w.terminal, now)],
           alerts := if w.terminal then s.alerts + {w.slot} else s.alerts,
           workers := s.workers[who := if w.caught then Finished(w.slot, w.token) else Recorded(w.slot, w.token)])
    case CommitSuccess(who, late) =>
      if who !in s.workers || !s.workers[who].Holding? then s
      else
        var w := s.workers[who];
        s.(runs := s.runs[w.slot := GeneratedRun(RecordOf(s, w.slot))],
           picks := s.picks + {w.slot},
           alerts := if late then s.alerts + {w.slot} else s.alerts,
           workers := s.workers[who := Recorded(w.slot, w.token)])
    case Release(who) =>
      if who !in s.workers then s
      else
        var w := s.workers[who];
        Leave(if w.Chosen? then s else s.(leases := Unleased(s, w.slot, w.token)), who)
    case Die(who) => Leave(s, who)
  }

  function Run(s: State, actions: seq<Action>): State {
    if actions == [] then s else Next(Run(s, actions[..|actions| - 1]), actions[|actions| - 1])
  }

  // ---- choosing ----

  lemma {:induction false} UnattemptedIsFirst(runs: map<Slot, Record>, day: Day, due: seq<Game>)
    ensures FirstUnattempted(runs, day, due).None? <==> forall g :: g in due ==> Slot(g, day) in runs
    ensures FirstUnattempted(runs, day, due).Some? ==>
      var slot := FirstUnattempted(runs, day, due).value;
      slot.game in due && slot.day == day && slot !in runs
  {
    if due != [] {
      UnattemptedIsFirst(runs, day, due[1..]);
      assert due == [due[0]] + due[1..];
    }
  }

  lemma {:induction false} RetryableIsFirst(runs: map<Slot, Record>, day: Day, due: seq<Game>, now: int)
    ensures FirstRetryable(runs, day, due, now).None? <==> forall g :: g in due ==> !Retryable(runs, Slot(g, day), now)
    ensures FirstRetryable(runs, day, due, now).Some? ==>
      var slot := FirstRetryable(runs, day, due, now).value;
      slot.game in due && slot.day == day && Retryable(runs, slot, now)
  {
    if due != [] {
      RetryableIsFirst(runs, day, due[1..], now);
      assert due == [due[0]] + due[1..];
    }
  }

  /** Attempts are left, and the time of the retry has come. */
  predicate DueAgain(runs: map<Slot, Record>, slot: Slot, now: int) {
    && slot in runs && runs[slot].status == Failed && runs[slot].attempts <= 2
    && runs[slot].retryAt != None && runs[slot].retryAt.value <= now
  }

  lemma {:induction false} FirstInOrder(runs: map<Slot, Record>, day: Day, due: seq<Game>, now: int, i: nat)
    requires i < |due|
    ensures FirstUnattempted(runs, day, due) == Some(Slot(due[i], day)) && due[i] !in due[..i] ==>
      forall g :: g in due[..i] ==> Slot(g, day) in runs
    ensures FirstRetryable(runs, day, due, now) == Some(Slot(due[i], day)) && due[i] !in due[..i] ==>
      forall g :: g in due[..i] ==> !Retryable(runs, Slot(g, day), now)
  {
    if i > 0 {
      assert due[..i] == [due[0]] + due[1..][..i - 1];
      FirstInOrder(runs, day, due[1..], now, i - 1);
    }
  }

  /** A tick takes the first due game never attempted; if all were, the first whose retry is due; and
      none only if there is no such game either. */
  ghost predicate ChosenInOrder(runs: map<Slot, Record>, day: Day, due: seq<Game>, now: int, c: Option<Slot>) {
    if c.None? then forall g :: g in due ==> Slot(g, day) in runs && !DueAgain(runs, Slot(g, day), now)
    else
      && c.value.game in due && c.value.day == day
      && (c.value in runs ==> DueAgain(runs, c.value, now) && forall g :: g in due ==> Slot(g, day) in runs)
      && forall i :: 0 <= i < |due| && due[i] == c.value.game && due[i] !in due[..i] ==>
           forall g :: g in due[..i] ==>
             Slot(g, day) in runs && (c.value in runs ==> !DueAgain(runs, Slot(g, day), now))
  }

  /** No game is retried while another due game is still unattempted, games are taken in their order,
      and a tick is idle only when every due game has been attempted and none can be retried now. */
  lemma RetriesWaitForFirstAttempts(runs: map<Slot, Record>, day: Day, due: seq<Game>, now: int)
    ensures ChosenInOrder(runs, day, due, now, Choice(runs, day, due, now))
  {
    UnattemptedIsFirst(runs, day, due);
    RetryableIsFirst(runs, day, due, now);
    forall i | 0 <= i < |due|
      ensures due[i] !in due[..i] && Choice(runs, day, due, now) == Some(Slot(due[i], day)) ==>
        forall g :: g in due[..i] ==>
          Slot(g, day) in runs && (Slot(due[i], day) in runs ==> !DueAgain(runs, Slot(g, day), now))
    {
      FirstInOrder(runs, day, due, now, i);
    }
  }

  // ---- every interleaving ----

  /** A failed run can be retried or has its alert queued; a generated run has its picks queued. */
  predicate RecordSound(s: State, slot: Slot) {
    slot in s.runs ==>
      var r := s.runs[slot];
      && (r.status.Failed? && r.retryAt.None? ==> slot in s.alerts)
      && (r.status.Failed? && r.retryAt.Some? ==> r.attempts < MAX_PIPELINE_ATTEMPTS)
      && (r.status.Generated? ==> slot in s.picks)
  }

  predicate WorkerSound(w: Worker) {
    w.Failing? && !w.terminal ==> w.attempts < MAX_PIPELINE_ATTEMPTS
  }

  ghost predicate Sound(s: State) {
    && (forall slot :: RecordSound(s, slot))
    && (forall who :: who in s.workers ==> WorkerSound(s.workers[who]))
  }

  lemma StepKeepsRecord(s: State, a: Action, slot: Slot)
    requires Sound(s)
    ensures RecordSound(Next(s, a), slot)
  {
    assert RecordSound(s, slot);
    if a.CommitFailure? && a.who in s.workers {
      assert WorkerSound(s.workers[a.who]);
    }
  }

  lemma StepKeepsSound(s: State, a: Action)
    requires Sound(s)
    ensures Sound(Next(s, a))
  {
    forall slot ensures RecordSound(Next(s, a), slot) {
      StepKeepsRecord(s, a, slot);
    }
  }

  lemma {:induction false} RunIsSound(s: State, actions: seq<Action>)
    requires Sound(s)
    ensures Sound(Run(s, actions))
  {
    if actions != [] {
      RunIsSound(s, actions[..|actions| - 1]);
      StepKeepsSound(Run(s, actions[..|actions| - 1]), actions[|actions| - 1]);
    }
  }

  /** In every interleaving of ticks, a failed run without a retry time has its alert queued, and
      one with a retry time has attempts left. */
  lemma FailedRunsAreNoticed(actions: seq<Action>, slot: Slot)
    requires slot in Run(INITIAL, actions).runs
    ensures var s := Run(INITIAL, actions);
      && (s.runs[slot].status.Failed? && s.runs[slot].retryAt.None? ==> slot in s.alerts)
      && (s.runs[slot].status.Failed? && s.runs[slot].retryAt.Some? ==> s.runs[slot].attempts < MAX_PIPELINE_ATTEMPTS)
      && (s.runs[slot].status.Generated? ==> slot in s.picks)
  {
    RunIsSound(INITIAL, actions);
    assert RecordSound(Run(INITIAL, actions), slot);
  }

  /** A generated run never reverts; nothing about it changes. */
  lemma {:induction false} GeneratedIsForever(s: State, more: seq<Action>, slot: Slot)
    requires slot in s.runs && s.runs[slot].status.Generated?
    ensures slot in Run(s, more).runs && Run(s, more).runs[slot] == s.runs[slot]
  {
    if more != [] {
      GeneratedIsForever(s, more[..|more| - 1], slot);
    }
  }

  // ---- the attempt bound ----

  /** No run has recorded more than three attempts. */
  ghost predicate Within(s: State) {
    forall slot :: slot in s.runs ==> s.runs[slot].attempts <= MAX_PIPELINE_ATTEMPTS
  }

  /** The step records an attempt, on a run not generated yet, that was counted when three had been
      recorded already. */
  predicate Breaches(s: State, a: Action) {
    && (a.CommitFailure? || a.CommitSuccess?) && a.who in s.workers
    && var w := s.workers[a.who];
    && !IsGenerated(s, w.slot)
    && ((a.CommitFailure? && w.Failing? && w.attempts > MAX_PIPELINE_ATTEMPTS)
        || (a.CommitSuccess? && w.Holding? && AttemptsOf(s, w.slot) >= MAX_PIPELINE_ATTEMPTS))
  }

  /** The exact condition for one step. */
  lemma StepKeepsBoundExactly(s: State, a: Action)
    requires Within(s)
    ensures Within(Next(s, a)) <==> !Breaches(s, a)
  {
    var t := Next(s, a);
    if Breaches(s, a) {
      assert s.workers[a.who].slot in t.runs;
    }
  }

  /** The bound holds in every state the run passes through. */
  ghost predicate AlwaysWithin(s: State, actions: seq<Action>) {
    Within(Run(s, actions)) && (actions != [] ==> AlwaysWithin(s, actions[..|actions| - 1]))
  }

  ghost predicate NeverBreaches(s: State, actions: seq<Action>) {
    actions != [] ==>
      var front := actions[..|actions| - 1];
      NeverBreaches(s, front) && !Breaches(Run(s, front), actions[|actions| - 1])
  }

  /** The exact condition for a run: the bound holds throughout if and only if no step records an
      attempt counted when three had been recorded. */
  lemma {:induction false} BoundHoldsExactly(s: State, actions: seq<Action>)
    requires Within(s)
    ensures AlwaysWithin(s, actions) <==> NeverBreaches(s, actions)
  {
    if actions != [] {
      var front := actions[..|actions| - 1];
      BoundHoldsExactly(s, front);
      if AlwaysWithin(s, front) {
        WithinAtEnd(s, front);
        StepKeepsBoundExactly(Run(s, front), actions[|actions| - 1]);
      }
    }
  }

  lemma WithinAtEnd(s: State, actions: seq<Action>)
    requires AlwaysWithin(s, actions)
    ensures Within(Run(s, actions))
  {
  }

  // ---- whole ticks ----

  /** How the pipeline ends once it has the lease: picks committed, possibly after the deadline; a
      failure recorded once; or a missed deadline recorded by the pipeline and, because a later
      statement throws, once more by the error handler. */
  datatype Ending = Succeeds(late: bool) | Fails(missedDeadline: bool, at: int) | FailsTwice(at: int)

  function EndingActions(who: nat, ending: Ending): seq<Action> {
    match ending
    case Succeeds(late) => [CommitSuccess(who, late), Release(who)]
    case Fails(missedDeadline, at) =>
      [ReadAttempts(who, missedDeadline, true), CommitFailure(who, at), Release(who)]
    case FailsTwice(at) =>
      [ReadAttempts(who, true, false), CommitFailure(who, at),
       ReadAttempts(who, true, true), CommitFailure(who, at), Release(who)]
  }

  /** What an ending writes. */
  function Written(s: State, slot: Slot, ending: Ending): State {
    match ending
    case Succeeds(late) =>
      s.(runs := s.runs[slot := GeneratedRun(RecordOf(s, slot))], picks := s.picks + {slot},
         alerts := if late then s.alerts + {slot} else s.alerts)
    case Fails(missedDeadline, at) => FailureWritten(s, slot, missedDeadline, at)
    case FailsTwice(at) => FailureWritten(FailureWritten(s, slot, true, at), slot, true, at)
  }

  function FailureWritten(s: State, slot: Slot, missedDeadline: bool, at: int): State {
    var attempts := AttemptsOf(s, slot) + 1;
    var terminal := missedDeadline || attempts >= MAX_PIPELINE_ATTEMPTS;
    s.(runs := s.runs[slot := FailedRun(RecordOf(s, slot), attempts, terminal, at)],
       alerts := if terminal then s.alerts + {slot} else s.alerts)
  }

  /** The attempts an ending adds to a run that is not generated. */
  function AttemptsAdded(ending: Ending): nat {
    if ending.FailsTwice? then 2 else 1
  }

  lemma RunSnoc(s: State, actions: seq<Action>, a: Action)
    ensures Run(s, actions + [a]) == Next(Run(s, actions), a)
  {
    assert (actions + [a])[..|actions|] == actions;
  }

  lemma {:induction false} RunConcat(s: State, a: seq<Action>, b: seq<Action>)
    ensures Run(s, a + b) == Run(Run(s, a), b)
  {
    if b == [] {
      assert a + b == a;
    } else {
      var front, last := b[..|b| - 1], b[|b| - 1];
      RunConcat(s, a, front);
      RunSnoc(s, a + front, last);
      RunSnoc(Run(s, a), front, last);
      assert b == front + [last] && a + b == a + front + [last];
    }
  }

  lemma RunTwo(s: State, a: Action, b: Action)
    ensures Run(s, [a]) == Next(s, a) && Run(s, [a, b]) == Next(Next(s, a), b)
  {
    RunSnoc(s, [], a);
    RunSnoc(s, [a], b);
    assert [] + [a] == [a] && [a] + [b] == [a, b];
  }

  lemma RunThree(s: State, a: Action, b: Action, c: Action)
    ensures Run(s, [a, b, c]) == Next(Next(Next(s, a), b), c)
  {
    RunTwo(s, a, b);
    RunSnoc(s, [a, b], c);
    assert [a, b] + [c] == [a, b, c];
  }

  /** A tick at work under the lease of its game and date. */
  predicate AtWork(s: State, who: nat, slot: Slot, tok: nat) {
    who in s.workers && s.workers[who] == Holding(slot, tok) && slot in s.leases && s.leases[slot].token == tok
  }

  /** The tables after a tick wrote its ending, gave back its lease and left. */
  function Ended(s: State, who: nat, slot: Slot, ending: Ending): State {
    Written(s, slot, ending).(leases := s.leases - {slot}, workers := s.workers - {who})
  }

  /** What a tick leaves behind does not depend on how far it was. */
  lemma EndedForgetsTick(s: State, who: nat, w: Worker, slot: Slot, ending: Ending)
    ensures Ended(s.(workers := s.workers[who := w]), who, slot, ending) == Ended(s, who, slot, ending)
  {
    assert s.workers[who := w] - {who} == s.workers - {who};
  }

  lemma SuccessEnds(s: State, who: nat, slot: Slot, tok: nat, late: bool)
    requires AtWork(s, who, slot, tok)
    ensures Run(s, EndingActions(who, Succeeds(late))) == Ended(s, who, slot, Succeeds(late))
  {
    RunTwo(s, CommitSuccess(who, late), Release(who));
    var t := Next(s, CommitSuccess(who, late));
    assert t.workers[who] == Recorded(slot, tok) && t.leases == s.leases;
    assert t.workers - {who} == s.workers - {who};
  }

  /** Counting and writing one failure. */
  lemma FailureIsWritten(s: State, who: nat, missedDeadline: bool, caught: bool, at: int)
    requires who in s.workers && CanCount(s.workers[who], caught)
    ensures var w := s.workers[who];
      Next(Next(s, ReadAttempts(who, missedDeadline, caught)), CommitFailure(who, at))
      == FailureWritten(s, w.slot, missedDeadline, at).(
           workers := s.workers[who := if caught then Finished(w.slot, w.token) else Recorded(w.slot, w.token)])
  {
    var w, t := s.workers[who], Next(s, ReadAttempts(who, missedDeadline, caught));
    assert t.workers[who].Failing? && t.workers[who].attempts == AttemptsOf(s, w.slot) + 1 && t.runs == s.runs;
    var after := if caught then Finished(w.slot, w.token) else Recorded(w.slot, w.token);
    assert t.workers[who := after] == s.workers[who := after];
  }

  lemma FailureEnds(s: State, who: nat, slot: Slot, tok: nat, missedDeadline: bool, at: int)
    requires AtWork(s, who, slot, tok)
    ensures Run(s, EndingActions(who, Fails(missedDeadline, at))) == Ended(s, who, slot, Fails(missedDeadline, at))
  {
    RunThree(s, ReadAttempts(who, missedDeadline, true), CommitFailure(who, at), Release(who));
    FailureIsWritten(s, who, missedDeadline, true, at);
    assert s.workers[who := Finished(slot, tok)] - {who} == s.workers - {who};
  }

  /** The error handler records a failure after the pipeline recorded one. */
  lemma SecondFailureEnds(s: State, who: nat, slot: Slot, tok: nat, at: int)
    requires who in s.workers && s.workers[who] == Recorded(slot, tok)
    requires slot in s.leases && s.leases[slot].token == tok
    ensures Run(s, [ReadAttempts(who, true, true), CommitFailure(who, at), Release(who)])
            == Ended(s, who, slot, Fails(true, at))
  {
    RunThree(s, ReadAttempts(who, true, true), CommitFailure(who, at), Release(who));
    FailureIsWritten(s, who, true, true, at);
    assert s.workers[who := Finished(slot, tok)] - {who} == s.workers - {who};
  }

  lemma TwoFailuresEnd(s: State, who: nat, slot: Slot, tok: nat, at: int)
    requires AtWork(s, who, slot, tok)
    ensures Run(s, EndingActions(who, FailsTwice(at))) == Ended(s, who, slot, FailsTwice(at))
  {
    var first := [ReadAttempts(who, true, false), CommitFailure(who, at)];
    var second := [ReadAttempts(who, true, true), CommitFailure(who, at), Release(who)];
    assert EndingActions(who, FailsTwice(at)) == first + second;
    RunConcat(s, first, second);
    RunTwo(s, ReadAttempts(who, true, false), CommitFailure(who, at));
    FailureIsWritten(s, who, true, false, at);
    var t := FailureWritten(s, slot, true, at);
    SecondFailureEnds(Run(s, first), who, slot, tok, at);
    EndedForgetsTick(t, who, Recorded(slot, tok), slot, Fails(true, at));
  }

  lemma EndingWrites(s: State, who: nat, slot: Slot, tok: nat, ending: Ending)
    requires AtWork(s, who, slot, tok)
    ensures Run(s, EndingActions(who, ending)) == Ended(s, who, slot, ending)
  {
    match ending
    case Succeeds(late) => SuccessEnds(s, who, slot, tok, late);
    case Fails(missedDeadline, at) => FailureEnds(s, who, slot, tok, missedDeadline, at);
    case FailsTwice(at) => TwoFailuresEnd(s, who, slot, tok, at);
  }

  function TickActions(who: nat, tok: nat, now: int, ending: Ending): seq<Action> {
    [Acquire(who, tok, now)] + EndingActions(who, ending)
  }

  function Leased(s: State, slot: Slot, now: int, tok: nat): State {
    s.(leases := s.leases[slot := Lease(tok, now + LEASE_MS)], issued := s.issued + {tok})
  }

  lemma AcquireGrants(s: State, who: nat, slot: Slot, tok: nat, now: int)
    requires who in s.workers && s.workers[who] == Chosen(slot) && tok !in s.issued && LeaseFree(s, slot, now)
    ensures Run(s, [Acquire(who, tok, now)])
            == Leased(s, slot, now, tok).(workers := s.workers[who := Holding(slot, tok)])
  {
    RunTwo(s, Acquire(who, tok, now), Acquire(who, tok, now));
  }

  /** A tick that is granted its lease and left alone writes its ending and leaves no trace else. */
  lemma TickWrites(s: State, who: nat, slot: Slot, tok: nat, now: int, ending: Ending)
    requires who in s.workers && s.workers[who] == Chosen(slot) && tok !in s.issued && LeaseFree(s, slot, now)
    ensures Run(s, TickActions(who, tok, now, ending)) == Ended(Leased(s, slot, now, tok), who, slot, ending)
  {
    var held := Run(s, [Acquire(who, tok, now)]);
    AcquireGrants(s, who, slot, tok, now);
    RunConcat(s, [Acquire(who, tok, now)], EndingActions(who, ending));
    EndingWrites(held, who, slot, tok, ending);
    EndedForgetsTick(Leased(s, slot, now, tok), who, Holding(slot, tok), slot, ending);
  }

  /** A tick on empty lease and worker tables changes what it writes and the issued tokens only. */
  lemma EndedAlone(s: State, slot: Slot, tok: nat, now: int, ending: Ending)
    requires s.workers == map[] && s.leases == map[]
    ensures Ended(Leased(s.(workers := s.workers[0 := Chosen(slot)]), slot, now, tok), 0, slot, ending)
            == Written(s.(issued := s.issued + {tok}), slot, ending)
  {
    EndedForgetsTick(Leased(s, slot, now, tok), 0, Chosen(slot), slot, ending);
    assert s.leases[slot := Lease(tok, now + LEASE_MS)] - {slot} == map[];
    assert s.workers - {0} == map[];
  }

  lemma EndingAttempts(s: State, slot: Slot, ending: Ending)
    ensures var t := Written(s, slot, ending);
      && (IsGenerated(s, slot) ==> t.runs == s.runs)
      && (!IsGenerated(s, slot) ==>
            slot in t.runs && AttemptsOf(t, slot) == AttemptsOf(s, slot) + AttemptsAdded(ending))
      && (forall other :: other != slot && other in t.runs ==> other in s.runs && t.runs[other] == s.runs[other])
      && (forall other :: other != slot && other in s.runs ==> other in t.runs)
  {
  }

  /** The exact condition for a tick: granted its lease and left alone, it keeps the bound if and only
      if at that moment the run is generated or has room for what the tick records. A tick that
      records once needs a count below three. */
  lemma TickKeepsBoundExactly(s: State, who: nat, slot: Slot, tok: nat, now: int, ending: Ending)
    requires who in s.workers && s.workers[who] == Chosen(slot) && tok !in s.issued && LeaseFree(s, slot, now)
    requires Within(s)
    ensures Within(Run(s, TickActions(who, tok, now, ending)))
            <==> IsGenerated(s, slot) || AttemptsOf(s, slot) + AttemptsAdded(ending) <= MAX_PIPELINE_ATTEMPTS
  {
    TickWrites(s, who, slot, tok, now, ending);
    EndingAttempts(Leased(s, slot, now, tok), slot, ending);
  }

  /** A manual request asks for a game whatever its count; the same condition decides. */
  lemma RequestKeepsBoundExactly(s: State, who: nat, slot: Slot, tok: nat, now: int, ending: Ending)
    requires who !in s.workers && !IsGenerated(s, slot) && tok !in s.issued && LeaseFree(s, slot, now) && Within(s)
    ensures Within(Run(s, [Request(who, slot)] + TickActions(who, tok, now, ending)))
            <==> AttemptsOf(s, slot) + AttemptsAdded(ending) <= MAX_PIPELINE_ATTEMPTS
  {
    var t := s.(workers := s.workers[who := Chosen(slot)]);
    RunConcat(s, [Request(who, slot)], TickActions(who, tok, now, ending));
    RunTwo(s, Request(who, slot), Request(who, slot));
    TickKeepsBoundExactly(t, who, slot, tok, now, ending);
  }

  // ---- runs that record a fourth attempt ----

  /** A scheduled tick that fails before the cutoff. */
  function FailingTick(game: Game, day: Day, tok: nat, now: int): seq<Action> {
    [Choose(0, day, [game], now)] + TickActions(0, tok, now, Fails(false, now))
  }

  function TwoFailingTicks(game: Game, day: Day, now: int): seq<Action> {
    FailingTick(game, day, 0, now) + FailingTick(game, day, 1, now + RETRY_MS)
  }

  /** Only this run, with `attempts` failures and a retry time, and nobody at work. */
  function FailedTimes(slot: Slot, attempts: nat, retryAt: int, issued: set<nat>): State {
    State(map[slot := Record(Failed, attempts, Some(retryAt))], {}, {}, map[], issued, map[])
  }

  /** A tick for which only this game is due chooses it when it can be worked on. */
  lemma SoleChoice(s: State, who: nat, game: Game, day: Day, now: int)
    requires who !in s.workers && (Slot(game, day) !in s.runs || Retryable(s.runs, Slot(game, day), now))
    ensures Run(s, [Choose(who, day, [game], now)]) == s.(workers := s.workers[who := Chosen(Slot(game, day))])
  {
    assert game in [game];
    RetriesWaitForFirstAttempts(s.runs, day, [game], now);
    RunTwo(s, Choose(who, day, [game], now), Choose(who, day, [game], now));
  }

  lemma FailingTickFails(s: State, game: Game, day: Day, tok: nat, now: int)
    requires s.workers == map[] && s.leases == map[] && tok !in s.issued
    requires Slot(game, day) !in s.runs || Retryable(s.runs, Slot(game, day), now)
    ensures Run(s, FailingTick(game, day, tok, now))
            == FailureWritten(s.(issued := s.issued + {tok}), Slot(game, day), false, now)
  {
    var slot, choose := Slot(game, day), [Choose(0, day, [game], now)];
    var s1 := Run(s, choose);
    SoleChoice(s, 0, game, day, now);
    RunConcat(s, choose, TickActions(0, tok, now, Fails(false, now)));
    TickWrites(s1, 0, slot, tok, now, Fails(false, now));
    EndedAlone(s, slot, tok, now, Fails(false, now));
  }

  lemma FirstTickFails(game: Game, day: Day, now: int)
    ensures Run(INITIAL, FailingTick(game, day, 0, now)) == FailedTimes(Slot(game, day), 1, now + RETRY_MS, {0})
  {
    FailingTickFails(INITIAL, game, day, 0, now);
  }

  lemma SecondTickFails(game: Game, day: Day, now: int)
    ensures Run(FailedTimes(Slot(game, day), 1, now, {0}), FailingTick(game, day, 1, now))
            == FailedTimes(Slot(game, day), 2, now + RETRY_MS, {0, 1})
  {
    FailingTickFails(FailedTimes(Slot(game, day), 1, now, {0}), game, day, 1, now);
  }

  lemma TwoTicksFail(game: Game, day: Day, now: int)
    ensures Run(INITIAL, TwoFailingTicks(game, day, now))
            == FailedTimes(Slot(game, day), 2, now + 2 * RETRY_MS, {0, 1})
  {
    RunConcat(INITIAL, FailingTick(game, day, 0, now), FailingTick(game, day, 1, now + RETRY_MS));
    FirstTickFails(game, day, now);
    SecondTickFails(game, day, now + RETRY_MS);
  }

  /** Two ticks choose the run at its last attempt, then work one after the other. */
  function Overlap(game: Game, day: Day, now: int): seq<Action> {
    TwoFailingTicks(game, day, now)
    + [Choose(0, day, [game], now + 2 * RETRY_MS), Choose(1, day, [game], now + 2 * RETRY_MS)]
    + TickActions(0, 2, now + 2 * RETRY_MS, Fails(false, now + 2 * RETRY_MS))
    + TickActions(1, 3, now + 2 * RETRY_MS, Fails(false, now + 2 * RETRY_MS))
  }

  lemma RunInFour(s: State, a: seq<Action>, b: seq<Action>, c: seq<Action>, d: seq<Action>)
    ensures Run(s, a + b + c + d) == Run(Run(Run(Run(s, a), b), c), d)
  {
    RunConcat(s, a, b);
    RunConcat(s, a + b, c);
    RunConcat(s, a + b + c, d);
  }

  lemma BothChoose(s: State, game: Game, day: Day, now: int)
    requires Retryable(s.runs, Slot(game, day), now) && s.workers == map[]
    ensures Run(s, [Choose(0, day, [game], now), Choose(1, day, [game], now)])
            == s.(workers := map[0 := Chosen(Slot(game, day)), 1 := Chosen(Slot(game, day))])
  {
    var a, b := Choose(0, day, [game], now), Choose(1, day, [game], now);
    SoleChoice(s, 0, game, day, now);
    SoleChoice(Run(s, [a]), 1, game, day, now);
    RunConcat(s, [a], [b]);
    assert [a] + [b] == [a, b];
  }

  /** Two ticks that chose a failed run and then work one after the other record two attempts. */
  lemma BothRecord(s: State, slot: Slot, tok: nat, tok': nat, now: int)
    requires s.workers == map[0 := Chosen(slot), 1 := Chosen(slot)] && s.leases == map[] && !IsGenerated(s, slot)
    requires tok !in s.issued && tok' !in s.issued && tok != tok'
    ensures var t := Run(s, TickActions(0, tok, now, Fails(false, now)));
      AttemptsOf(Run(t, TickActions(1, tok', now, Fails(false, now))), slot) == AttemptsOf(s, slot) + 2
  {
    TickWrites(s, 0, slot, tok, now, Fails(false, now));
    EndingAttempts(Leased(s, slot, now, tok), slot, Fails(false, now));
    var t := Run(s, TickActions(0, tok, now, Fails(false, now)));
    TickWrites(t, 1, slot, tok', now, Fails(false, now));
    EndingAttempts(Leased(t, slot, now, tok'), slot, Fails(false, now));
  }

  /** For every game and date, from the empty tables: four attempts, although no lease was ever taken
      while another was held. The count is not checked again once the lease is taken. */
  lemma OverlapRecordsFourth(game: Game, day: Day, now: int)
    ensures AttemptsOf(Run(INITIAL, Overlap(game, day, now)), Slot(game, day)) == MAX_PIPELINE_ATTEMPTS + 1
  {
    var slot, t := Slot(game, day), now + 2 * RETRY_MS;
    var s := FailedTimes(slot, 2, t, {0, 1});
    RunInFour(INITIAL, TwoFailingTicks(game, day, now), [Choose(0, day, [game], t), Choose(1, day, [game], t)],
              TickActions(0, 2, t, Fails(false, t)), TickActions(1, 3, t, Fails(false, t)));
    TwoTicksFail(game, day, now);
    BothChoose(s, game, day, t);
    BothRecord(s.(workers := map[0 := Chosen(slot), 1 := Chosen(slot)]), slot, 2, 3, t);
  }

  /** A tick at the last attempt that misses the deadline and throws after recording it. */
  function DoubleRecord(game: Game, day: Day, now: int): seq<Action> {
    TwoFailingTicks(game, day, now)
    + ([Choose(0, day, [game], now + 2 * RETRY_MS)]
       + TickActions(0, 2, now + 2 * RETRY_MS, FailsTwice(now + 2 * RETRY_MS)))
  }

  /** For every game and date, from the empty tables and with no two ticks at work at once: four
      attempts, because the missed deadline is recorded twice. */
  lemma DoubleRecordRecordsFourth(game: Game, day: Day, now: int)
    ensures AttemptsOf(Run(INITIAL, DoubleRecord(game, day, now)), Slot(game, day)) == MAX_PIPELINE_ATTEMPTS + 1
  {
    var slot, t := Slot(game, day), now + 2 * RETRY_MS;
    var choose, tick := [Choose(0, day, [game], t)], TickActions(0, 2, t, FailsTwice(t));
    var s := FailedTimes(slot, 2, t, {0, 1});
    TwoTicksFail(game, day, now);
    RunConcat(INITIAL, TwoFailingTicks(game, day, now), choose + tick);
    RunConcat(s, choose, tick);
    SoleChoice(s, 0, game, day, t);
    TickWrites(Run(s, choose), 0, slot, 2, t, FailsTwice(t));
    EndingAttempts(Leased(Run(s, choose), slot, t, 2), slot, FailsTwice(t));
  }

  // ---- when the bound holds ----

  /** Another tick holds this game and date: it has taken the lease and not left yet. */
  ghost predicate Held(s: State, slot: Slot) {
    exists who :: who in s.workers && !s.workers[who].Chosen? && s.workers[who].slot == slot
  }

  /** A lease is taken only when no other tick still works under one, with attempts left or picks made;
      and a tick does not record a second failure. */
  ghost predicate Careful(s: State, a: Action) {
    && (a.Acquire? && a.who in s.workers && s.workers[a.who].Chosen? && LeaseFree(s, s.workers[a.who].slot, a.now) ==>
          var slot := s.workers[a.who].slot;
          !Held(s, slot) && (AttemptsOf(s, slot) < MAX_PIPELINE_ATTEMPTS || IsGenerated(s, slot)))
    && (a.ReadAttempts? && a.who in s.workers && s.workers[a.who].Recorded? ==> IsGenerated(s, s.workers[a.who].slot))
  }

  ghost predicate AllCareful(s: State, actions: seq<Action>) {
    actions != [] ==>
      var front := actions[..|actions| - 1];
      AllCareful(s, front) && Careful(Run(s, front), actions[|actions| - 1])
  }

  /** A tick about to record found its run generated or with attempts left, and nothing was recorded
      since. */
  predicate WorkerBound(s: State, w: Worker) {
    (w.Holding? || w.Failing?) && !IsGenerated(s, w.slot) ==>
      && AttemptsOf(s, w.slot) < MAX_PIPELINE_ATTEMPTS
      && (w.Failing? ==> w.attempts == AttemptsOf(s, w.slot) + 1)
  }

  predicate Apart(v: Worker, w: Worker) {
    v.Chosen? || w.Chosen? || v.slot != w.slot
  }

  ghost predicate Orderly(s: State) {
    && (forall who :: who in s.workers ==> WorkerBound(s, s.workers[who]))
    && (forall a, b :: a in s.workers && b in s.workers && a != b ==> Apart(s.workers[a], s.workers[b]))
  }

  lemma OrderlyNeverBreaches(s: State, a: Action)
    requires Orderly(s)
    ensures !Breaches(s, a)
  {
    if (a.CommitFailure? || a.CommitSuccess?) && a.who in s.workers {
      assert WorkerBound(s, s.workers[a.who]);
    }
  }

  lemma StepKeepsWorker(s: State, a: Action, who: nat)
    requires Orderly(s) && Careful(s, a) && who in Next(s, a).workers
    ensures WorkerBound(Next(s, a), Next(s, a).workers[who])
  {
    if who in s.workers {
      assert WorkerBound(s, s.workers[who]);
      if a.who in s.workers && a.who != who {
        assert Apart(s.workers[a.who], s.workers[who]);
      }
    }
  }

  lemma StepKeepsApart(s: State, a: Action, v: nat, w: nat)
    requires Orderly(s) && Careful(s, a) && v in Next(s, a).workers && w in Next(s, a).workers && v != w
    ensures Apart(Next(s, a).workers[v], Next(s, a).workers[w])
  {
    assert v in s.workers && w in s.workers ==> Apart(s.workers[v], s.workers[w]);
  }

  lemma StepKeepsOrderly(s: State, a: Action)
    requires Orderly(s) && Careful(s, a)
    ensures Orderly(Next(s, a))
  {
    var t := Next(s, a);
    forall who | who in t.workers ensures WorkerBound(t, t.workers[who]) {
      StepKeepsWorker(s, a, who);
    }
    forall v, w | v in t.workers && w in t.workers && v != w ensures Apart(t.workers[v], t.workers[w]) {
      StepKeepsApart(s, a, v, w);
    }
  }

  lemma {:induction false} CarefulNeverBreaches(s: State, actions: seq<Action>)
    requires Orderly(s) && AllCareful(s, actions)
    ensures Orderly(Run(s, actions)) && NeverBreaches(s, actions)
  {
    if actions != [] {
      var front, last := actions[..|actions| - 1], actions[|actions| - 1];
      CarefulNeverBreaches(s, front);
      OrderlyNeverBreaches(Run(s, front), last);
      StepKeepsOrderly(Run(s, front), last);
    }
  }

  /** Choices may overlap and ticks may die: as long as every lease is taken with attempts left, from
      nobody still at work, and no tick records twice, a run never records more than three attempts. */
  lemma AtMostThreeAttempts(actions: seq<Action>, slot: Slot)
    requires AllCareful(INITIAL, actions)
    ensures AlwaysWithin(INITIAL, actions) && AttemptsOf(Run(INITIAL, actions), slot) <= 3
  {
    CarefulNeverBreaches(INITIAL, actions);
    BoundHoldsExactly(INITIAL, actions);
    WithinAtEnd(INITIAL, actions);
  }

  // ---- leases ----

  /** A lease stands until the tick that took it releases it, or until another tick takes it over after
      its fifteen minutes. */
  lemma LeaseEndsExactly(s: State, a: Action, slot: Slot)
    requires slot in s.leases
    ensures var lease, t := s.leases[slot], Next(s, a);
      || (slot in t.leases && t.leases[slot] == lease)
      || (a.Release? && a.who in s.workers && !s.workers[a.who].Chosen? && s.workers[a.who].slot == slot
          && s.workers[a.who].token == lease.token && slot !in t.leases)
      || (a.Acquire? && a.who in s.workers && s.workers[a.who] == Chosen(slot) && lease.expires <= a.now
          && t.leases == s.leases[slot := Lease(a.tok, a.now + 900_000)])
  {
  }

  /** A tick with a new token gets the lease exactly when there is none or it has expired; otherwise
      it leaves without a trace. */
  lemma LeaseIsGrantedExactly(s: State, who: nat, slot: Slot, tok: nat, now: int)
    requires who in s.workers && s.workers[who] == Chosen(slot) && tok !in s.issued
    ensures var t := Next(s, Acquire(who, tok, now));
      if slot !in s.leases || s.leases[slot].expires <= now
      then t.workers == s.workers[who := Holding(slot, tok)]
           && t.leases == s.leases[slot := Lease(tok, now + 900_000)] && t.runs == s.runs
      else t == s.(workers := s.workers - {who})
  {
  }

  ghost predicate TokensApart(s: State) {
    && (forall who :: who in s.workers && !s.workers[who].Chosen? ==> s.workers[who].token in s.issued)
    && (forall v, w :: v in s.workers && w in s.workers && v != w ==> DifferentTokens(s.workers[v], s.workers[w]))
  }

  predicate DifferentTokens(v: Worker, w: Worker) {
    v.Chosen? || w.Chosen? || v.token != w.token
  }

  /** In every run no two ticks carry the same token, so that a lease is released by the tick that took
      it and by no other. */
  lemma {:induction false} LeaseHasOneHolder(actions: seq<Action>)
    ensures TokensApart(Run(INITIAL, actions))
  {
    if actions != [] {
      LeaseHasOneHolder(actions[..|actions| - 1]);
      StepKeepsTokensApart(Run(INITIAL, actions[..|actions| - 1]), actions[|actions| - 1]);
    }
  }

  /** A step gives at most one tick a token, and that one is new or was the tick's already. */
  lemma StepKeepsToken(s: State, a: Action, who: nat)
    requires who in Next(s, a).workers && !Next(s, a).workers[who].Chosen?
    ensures var tok := Next(s, a).workers[who].token;
      || (who in s.workers && !s.workers[who].Chosen? && s.workers[who].token == tok)
      || (a.Acquire? && a.who == who && a.tok == tok && tok !in s.issued && tok in Next(s, a).issued)
    ensures s.issued <= Next(s, a).issued
  {
  }

  lemma StepKeepsTokensApart(s: State, a: Action)
    requires TokensApart(s)
    ensures TokensApart(Next(s, a))
  {
    var t := Next(s, a);
    forall who | who in t.workers && !t.workers[who].Chosen? ensures t.workers[who].token in t.issued {
      StepKeepsToken(s, a, who);
    }
    forall v, w | v in t.workers && w in t.workers && v != w ensures DifferentTokens(t.workers[v], t.workers[w]) {
      if !t.workers[v].Chosen? && !t.workers[w].Chosen? {
        StepKeepsToken(s, a, v);
        StepKeepsToken(s, a, w);
        assert v in s.workers && w in s.workers ==> DifferentTokens(s.workers[v], s.workers[w]);
      }
    }
  }

  // ---- what a tick records ----

  /** A success makes the run generated and queues its picks. A failure leaves a generated run alone;
      otherwise it counts, and sets the retry a minute later unless the deadline was missed or three
      attempts are used up, which raises an alert. */
  predicate Records(s: State, t: State, slot: Slot, ending: Ending) {
    && slot in t.runs
    && match ending
       case Succeeds(late) =>
         && t.runs[slot] == (if IsGenerated(s, slot) then s.runs[slot]
                             else Record(Generated, AttemptsOf(s, slot) + 1, None))
         && t.picks == s.picks + {slot} && t.alerts == if late then s.alerts + {slot} else s.alerts
       case Fails(missed, at) =>
         var last := missed || AttemptsOf(s, slot) >= 2;
         && t.runs[slot] == (if IsGenerated(s, slot) then s.runs[slot]
                             else Record(Failed, AttemptsOf(s, slot) + 1, if last then None else Some(at + 60_000)))
         && t.picks == s.picks && t.alerts == if last then s.alerts + {slot} else s.alerts
       case FailsTwice(at) =>
         && t.runs[slot] == (if IsGenerated(s, slot) then s.runs[slot]
                             else Record(Failed, AttemptsOf(s, slot) + 2, None))
         && t.picks == s.picks && t.alerts == s.alerts + {slot}
  }

  lemma WrittenRecords(s: State, slot: Slot, ending: Ending)
    ensures Records(s, Written(s, slot, ending), slot, ending)
  {
  }
}
