/** The claim and completion calls as methods that update the outbox tables in place. */
module DeliveryOutbox {
  import opened Csv
  import opened Delivery

  datatype Completion = NotFound | AlreadySent(attempts: nat) | LeaseMismatch | Recorded(status: Status, attempts: nat)

  class Outbox {
    var rows: map<DeliveryId, Row>
    var log: seq<Attempt>
    var issued: set<Token>
    var decisions: map<GradeId, Decision>

    constructor ()
      ensures View() == INITIAL
    {
      rows, log, issued, decisions := map[], [], {}, map[];
    }

    function View(): State
      reads this
    {
      State(rows, log, issued, map[], decisions)
    }

    /** The claimable row that comes first in hand-out order. */
    method SelectCandidate(now: nat) returns (r: Option<DeliveryId>)
      ensures r.None? <==> forall id :: id in rows ==> !Claimable(View(), rows[id], now)
      ensures r.Some? ==> r.value in rows && Claimable(View(), rows[r.value], now)
      ensures r.Some? ==>
        forall id :: id in rows && Claimable(View(), rows[id], now) ==> rows[r.value].rank <= rows[id].rank
    {
      r := None;
      var rest := rows.Keys;
      while rest != {}
        invariant rest <= rows.Keys
        invariant r.None? ==> forall id :: id in rows && id !in rest ==> !Claimable(View(), rows[id], now)
        invariant r.Some? ==> r.value in rows && Claimable(View(), rows[r.value], now)
        invariant r.Some? ==> forall id :: id in rows && id !in rest && Claimable(View(), rows[id], now) ==>
          rows[r.value].rank <= rows[id].rank
        decreases rest
      {
        var id :| id in rest;
        rest := rest - {id};
        if Claimable(View(), rows[id], now) && (r.None? || rows[id].rank < rows[r.value].rank) {
          r := Some(id);
        }
      }
    }

    /** Leases the first claimable row under a fresh token. Uninterrupted, the first of the
        three tries a claim allows itself succeeds. */
    method ClaimDelivery(tok: Token, now: nat) returns (r: Option<DeliveryId>)
      requires tok !in issued
      modifies this
      ensures r.None? <==> forall id :: id in old(rows) ==> !Claimable(old(View()), old(rows)[id], now)
      ensures r.None? ==> View() == old(View())
      ensures r.Some? ==>
        && r.value in old(rows) && View() == Next(old(View()), Claim(r.value, tok, now)) != old(View())
        && forall id :: id in old(rows) && Claimable(old(View()), old(rows)[id], now) ==>
             old(rows)[r.value].rank <= old(rows)[id].rank
    {
      r := SelectCandidate(now);
      if r.Some? && Claimable(View(), rows[r.value], now) {
        var id := r.value;
        rows := rows[id := rows[id].(status := Leased, token := Some(tok), expires := now + Delivery.LEASE_MS)];
        issued := issued + {tok};
        assert tok in View().issued && tok !in old(View()).issued;
      }
    }

    /** Read the row, then commit the result with the log entry if the lease still stands. */
    method CompleteDelivery(id: DeliveryId, report: Report, now: nat) returns (r: Completion)
      requires ValidReport(report)
      modifies this`rows, this`log
      ensures View() == Next(Next(old(View()), Read(0, id, report)), Commit(0, now))
      ensures r.Recorded? <==> old(id in rows && rows[id].status.Leased? && rows[id].token == Some(report.token))
      ensures r.NotFound? <==> id !in old(rows)
      ensures r.AlreadySent? <==> old(id in rows && rows[id].status.Sent?)
      ensures r.Recorded? ==>
        && id in rows && rows[id].status == r.status && rows[id].token == None
        && rows[id].attempts == r.attempts == old(rows)[id].attempts + report.attempts
        && log == old(log) + [Attempt(id, report.token, report.verdict, report.attempts)]
      ensures r.Recorded? ==>
        && (r.status == Sent <==> report.verdict == WasSent)
        && (r.status == Ambiguous <==> report.verdict == WasAmbiguous)
        && (r.status == Dead <==> report.verdict == WasFailed && (report.attempts == 0 || r.attempts >= 12))
        && (r.status == Retry <==> report.verdict == WasFailed && report.attempts > 0 && r.attempts < 12)
        && rows[id].nextAt == if r.status == Retry then now + 1_800_000 else old(rows)[id].nextAt
      ensures !r.Recorded? ==> View() == old(View())
    {
      if id !in rows {
        return NotFound;
      }
      var row := rows[id];
      if row.status.Sent? {
        return AlreadySent(row.attempts);
      }
      if !row.status.Leased? || row.token != Some(report.token) {
        return LeaseMismatch;
      }
      var c := Completer(id, report, row.attempts);
      var total := row.attempts + report.attempts;
      var status := if report.verdict.WasSent? then Sent
                    else if report.verdict.WasAmbiguous? then Ambiguous
                    else if report.attempts == 0 || total >= DEAD_ATTEMPTS then Dead else Retry;
      var nextAt := if status.Retry? then now + RETRY_MS else row.nextAt;
      log := log + [Attempt(id, report.token, report.verdict, report.attempts)];
      rows := rows[id := row.(status := status, attempts := total, nextAt := nextAt, token := None, expires := 0)];
      assert (map[0 := c] - {0}) == map[];
      r := Recorded(status, total);
    }
  }
}
