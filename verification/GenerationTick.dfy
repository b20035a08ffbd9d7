/** The generation tables and one undisturbed scheduled tick over them. */
module GenerationTick {
  import opened Csv
  import opened Draws
  import opened Generation

  class Generator {
    var runs: map<Slot, Record>
    var alerts: set<Slot>
    var picks: set<Slot>
    var leases: map<Slot, Lease>
    var issued: set<nat>

    ghost function View(): State
      reads this
    {
      State(runs, alerts, picks, leases, issued, map[])
    }

    constructor ()
      ensures View() == INITIAL
    {
      runs, alerts, picks, leases, issued := map[], {}, {}, map[], {};
    }

    /** The first due game never attempted, otherwise the first that may be retried now. */
    method ChooseGame(day: Day, due: seq<Game>, now: int) returns (c: Option<Slot>)
      ensures c == Choice(runs, day, due, now)
      ensures ChosenInOrder(runs, day, due, now, c)
    {
      RetriesWaitForFirstAttempts(runs, day, due, now);
      var i := 0;
      while i < |due| && Slot(due[i], day) in runs
        invariant 0 <= i <= |due|
        invariant FirstUnattempted(runs, day, due) == FirstUnattempted(runs, day, due[i..])
      {
        assert due[i..][1..] == due[i + 1..];
        i := i + 1;
      }
      if i < |due| {
        return Some(Slot(due[i], day));
      }
      i := 0;
      while i < |due| && !Retryable(runs, Slot(due[i], day), now)
        invariant 0 <= i <= |due|
        invariant FirstRetryable(runs, day, due, now) == FirstRetryable(runs, day, due[i..], now)
      {
        assert due[i..][1..] == due[i + 1..];
        i := i + 1;
      }
      c := if i < |due| then Some(Slot(due[i], day)) else None;
    }

    /** One tick on its own: choose, take the lease, record the ending, release the lease. It keeps
        the attempt bound unless it records a missed deadline twice on a run with two attempts. */
    method ScheduledTick(day: Day, due: seq<Game>, now: int, tok: nat, ending: Ending) returns (c: Option<Slot>)
      requires tok !in issued
      modifies this
      ensures View() == Ticked(old(View()), day, due, now, tok, ending)
      ensures c.None? ==> View() == old(View()) && Idle(View(), day, due, now)
      ensures c.Some? ==> TickedOn(old(View()), View(), day, due, now, c.value, ending)
      ensures Within(old(View())) ==>
        (Within(View()) <==>
         c.None? || AttemptsOf(old(View()), c.value) + AttemptsAdded(ending) <= MAX_PIPELINE_ATTEMPTS)
      ensures Within(old(View())) && !ending.FailsTwice? ==> Within(View())
    {
      ghost var before := View();
      TickOutcome(before, day, due, now, tok, ending);
      TickRecords(before, day, due, now, tok, ending);
      TickStaysWithin(before, day, due, now, tok, ending);
      c := ChooseGame(day, due, now);
      if c.None? {
        return;
      }
      var slot := c.value;
      if slot in leases && leases[slot].expires > now {
        return None;
      }
      issued := issued + {tok};
      leases := leases[slot := Lease(tok, now + LEASE_MS)];
      RecordEnding(slot, ending);
      leases := leases - {slot};
    }

    method RecordEnding(slot: Slot, ending: Ending)
      modifies this`runs, this`alerts, this`picks
      ensures View() == Written(old(View()), slot, ending)
      ensures Records(old(View()), View(), slot, ending)
    {
      WrittenRecords(View(), slot, ending);
      match ending
      case Succeeds(late) => RecordSuccess(slot, late);
      case Fails(missedDeadline, at) => RecordFailure(slot, missedDeadline, at);
      case FailsTwice(at) =>
        RecordFailure(slot, true, at);
        RecordFailure(slot, true, at);
    }

    method RecordSuccess(slot: Slot, late: bool)
      modifies this`runs, this`alerts, this`picks
      ensures runs == old(runs)[slot := GeneratedRun(RecordOf(old(View()), slot))]
      ensures picks == old(picks) + {slot} && alerts == if late then old(alerts) + {slot} else old(alerts)
    {
      if slot !in runs {
        runs := runs[slot := Record(Generated, 1, None)];
      } else if !runs[slot].status.Generated? {
        runs := runs[slot := Record(Generated, runs[slot].attempts + 1, None)];
      }
      picks := picks + {slot};
      if late {
        alerts := alerts + {slot};
      }
    }

    method RecordFailure(slot: Slot, missedDeadline: bool, now: int)
      modifies this`runs, this`alerts
      ensures View() == FailureWritten(old(View()), slot, missedDeadline, now)
      ensures Records(old(View()), View(), slot, Fails(missedDeadline, now))
    {
      WrittenRecords(View(), slot, Fails(missedDeadline, now));
      var attempts := (if slot in runs then runs[slot].attempts else 0) + 1;
      var terminal := missedDeadline || attempts >= MAX_PIPELINE_ATTEMPTS;
      if slot !in runs || !runs[slot].status.Generated? {
        runs := runs[slot := Record(Failed, attempts, if terminal then None else Some(now + RETRY_MS))];
      }
      if terminal {
        alerts := alerts + {slot};
      }
    }
  }

  /** The game a tick works on: chosen, and its lease granted. */
  function Granted(s: State, day: Day, due: seq<Game>, now: int): Option<Slot> {
    var c := Choice(s.runs, day, due, now);
    if c.Some? && LeaseFree(s, c.value, now) then c else None
  }

  /** The steps of a tick; one without a game or a lease takes no others. */
  function Ticked(s: State, day: Day, due: seq<Game>, now: int, tok: nat, ending: Ending): State {
    if Granted(s, day, due, now).None? then Run(s, [Choose(0, day, due, now), Acquire(0, tok, now)])
    else Run(s, [Choose(0, day, due, now)] + TickActions(0, tok, now, ending))
  }

  lemma TickOutcome(s: State, day: Day, due: seq<Game>, now: int, tok: nat, ending: Ending)
    requires s.workers == map[] && tok !in s.issued
    ensures var c := Granted(s, day, due, now);
      Ticked(s, day, due, now, tok, ending)
      == if c.None? then s
         else Written(Leased(s, c.value, now, tok), c.value, ending).(
                leases := Leased(s, c.value, now, tok).leases - {c.value})
  {
    var c := Granted(s, day, due, now);
    RunTwo(s, Choose(0, day, due, now), Acquire(0, tok, now));
    if c.Some? {
      RunConcat(s, [Choose(0, day, due, now)], TickActions(0, tok, now, ending));
      TickWrites(Next(s, Choose(0, day, due, now)), 0, c.value, tok, now, ending);
      EndedForgetsTick(Leased(s, c.value, now, tok), 0, Chosen(c.value), c.value, ending);
      assert s.workers - {0} == map[];
    }
  }

  lemma TickStaysWithin(s: State, day: Day, due: seq<Game>, now: int, tok: nat, ending: Ending)
    requires s.workers == map[] && tok !in s.issued
    ensures var c, t := Granted(s, day, due, now), Ticked(s, day, due, now, tok, ending);
      Within(s) ==>
        && (Within(t) <==> c.None? || AttemptsOf(s, c.value) + AttemptsAdded(ending) <= MAX_PIPELINE_ATTEMPTS)
        && (!ending.FailsTwice? ==> Within(t))
  {
    var c, t := Granted(s, day, due, now), Ticked(s, day, due, now, tok, ending);
    TickOutcome(s, day, due, now, tok, ending);
    if Within(s) && c.Some? {
      RetriesWaitForFirstAttempts(s.runs, day, due, now);
      EndingAttempts(Leased(s, c.value, now, tok), c.value, ending);
      assert t.runs == Written(Leased(s, c.value, now, tok), c.value, ending).runs;
    }
  }

  /** A tick worked on this game: chosen in order, its lease free and given back, its ending recorded,
      and no other run touched. */
  ghost predicate TickedOn(s: State, t: State, day: Day, due: seq<Game>, now: int, slot: Slot, ending: Ending) {
    && ChosenInOrder(s.runs, day, due, now, Some(slot)) && (slot in s.leases ==> s.leases[slot].expires <= now)
    && Records(s, t, slot, ending) && t.leases == s.leases - {slot}
    && forall other :: other != slot ==> RecordOf(t, other) == RecordOf(s, other)
  }

  /** No game can be worked on, or somebody else is working on the one whose turn it is. */
  ghost predicate Idle(s: State, day: Day, due: seq<Game>, now: int) {
    || ChosenInOrder(s.runs, day, due, now, None)
    || exists slot :: slot in s.leases && s.leases[slot].expires > now
                      && ChosenInOrder(s.runs, day, due, now, Some(slot))
  }

  lemma TickRecords(s: State, day: Day, due: seq<Game>, now: int, tok: nat, ending: Ending)
    requires s.workers == map[] && tok !in s.issued
    ensures var c, t := Granted(s, day, due, now), Ticked(s, day, due, now, tok, ending);
      if c.None? then t == s && Idle(s, day, due, now) else TickedOn(s, t, day, due, now, c.value, ending)
  {
    TickOutcome(s, day, due, now, tok, ending);
    RetriesWaitForFirstAttempts(s.runs, day, due, now);
    var c := Granted(s, day, due, now);
    if c.Some? {
      WrittenRecords(Leased(s, c.value, now, tok), c.value, ending);
    }
  }
}
