/**
 * The confirmed scorecard: a purchased set's spend is split over its tickets in whole cents, and
 * graded tickets carry their share. Money is in cents.
 */
module Scorecard {
  import opened Csv

  datatype Payout = NoPrize | FixedPrize(cents: nat) | PendingPrize

  /** One ticket of a purchased set, with its grade if it has one and its settlement if it has one. */
  datatype Row = Row(ledger: nat, ordinal: nat, count: nat, spend: nat,
                     graded: bool, payout: Payout, settled: Option<nat>)

  /** A ticket's share: the floor, and one of the remainder cents for the first ordinals. */
  function Share(r: Row): nat
    requires r.count > 0
  {
    ShareOf(r.spend, r.count, r.ordinal)
  }

  function ShareOf(spend: nat, count: nat, ordinal: nat): nat
    requires count > 0
  {
    spend / count + if ordinal <= spend % count then 1 else 0
  }

  function EffectivePrize(r: Row): nat {
    if r.settled.Some? then r.settled.value
    else if r.payout.FixedPrize? then r.payout.cents
    else 0
  }

  predicate Unresolved(r: Row) {
    r.payout.PendingPrize? && r.settled.None?
  }

  predicate Counted(rows: seq<Row>) {
    forall r :: r in rows ==> r.count > 0
  }

  function Ledgers(rows: seq<Row>): set<nat> {
    if rows == [] then {} else Ledgers(rows[..|rows| - 1]) + {rows[|rows| - 1].ledger}
  }

  ghost function LedgersOf(rows: seq<Row>): set<nat> {
    set r | r in rows :: r.ledger
  }

  lemma {:induction false} LedgersAreAll(rows: seq<Row>)
    ensures Ledgers(rows) == LedgersOf(rows)
  {
    if rows != [] {
      LedgersAreAll(rows[..|rows| - 1]);
      assert rows == rows[..|rows| - 1] + [rows[|rows| - 1]];
    }
  }

  /** Each set's spend once. */
  function Spent(rows: seq<Row>): nat {
    if rows == [] then 0
    else
      var front, last := rows[..|rows| - 1], rows[|rows| - 1];
      Spent(front) + if last.ledger in Ledgers(front) then 0 else last.spend
  }

  function GradedSpend(rows: seq<Row>): nat
    requires Counted(rows)
  {
    if rows == [] then 0
    else
      var last := rows[|rows| - 1];
      GradedSpend(rows[..|rows| - 1]) + if last.graded then Share(last) else 0
  }

  function Won(rows: seq<Row>): nat {
    if rows == [] then 0
    else
      var last := rows[|rows| - 1];
      Won(rows[..|rows| - 1]) + if last.graded then EffectivePrize(last) else 0
  }

  function PendingCount(rows: seq<Row>): nat {
    if rows == [] then 0
    else
      var last := rows[|rows| - 1];
      PendingCount(rows[..|rows| - 1]) + if last.graded && Unresolved(last) then 1 else 0
  }

  function KnownNet(rows: seq<Row>): int
    requires Counted(rows)
  {
    Won(rows) - GradedSpend(rows)
  }

  /** `net` is withheld while any prize is pending. */
  datatype Card = Card(entries: nat, spent: nat, gradedSpend: nat, openSpend: int,
                       won: nat, knownNet: int, net: Option<int>, pending: nat)

  // ---- complete sets ----

  predicate SameSet(r: Row, q: Row) {
    r.ledger == q.ledger ==> r.count == q.count && r.spend == q.spend
  }

  ghost predicate HasOrdinal(rows: seq<Row>, l: nat, k: nat) {
    exists i :: 0 <= i < |rows| && rows[i].ledger == l && rows[i].ordinal == k
  }

  /** Every ticket of every set once: ordinals 1 through the ticket count. */
  ghost predicate Complete(rows: seq<Row>) {
    && (forall i :: 0 <= i < |rows| ==> 1 <= rows[i].ordinal <= rows[i].count)
    && (forall i, j :: 0 <= i < |rows| && 0 <= j < |rows| ==> SameSet(rows[i], rows[j]))
    && (forall i, j :: 0 <= i < j < |rows| ==>
          !(rows[i].ledger == rows[j].ledger && rows[i].ordinal == rows[j].ordinal))
    && (forall i, k :: 0 <= i < |rows| && 1 <= k <= rows[i].count ==> HasOrdinal(rows, rows[i].ledger, k))
  }

  // ---- shares of one set ----

  /** The shares of ordinals 1 through `k`. */
  function FirstShares(spend: nat, count: nat, k: nat): nat
    requires count > 0
  {
    if k == 0 then 0 else FirstShares(spend, count, k - 1) + ShareOf(spend, count, k)
  }

  lemma {:induction false} FirstSharesAre(spend: nat, count: nat, k: nat)
    requires 0 < count && k <= count
    ensures FirstShares(spend, count, k) == k * (spend / count) + if k <= spend % count then k else spend % count
  {
    if k > 0 {
      FirstSharesAre(spend, count, k - 1);
      assert k * (spend / count) == (k - 1) * (spend / count) + spend / count;
    }
  }

  /** The shares of a whole set add up to its spend. */
  lemma SharesAddUp(spend: nat, count: nat)
    requires count > 0
    ensures FirstShares(spend, count, count) == spend
  {
    FirstSharesAre(spend, count, count);
  }

  /** Earlier tickets never pay less than later ones, and at most a cent more. */
  lemma SharesAreFair(spend: nat, count: nat, i: nat, j: nat)
    requires 1 <= i <= j <= count
    ensures ShareOf(spend, count, j) <= ShareOf(spend, count, i) <= ShareOf(spend, count, j) + 1
  {
  }

  // ---- shares of many sets ----

  /** The shares of one set's rows with ordinals in a range. */
  function SharesBetween(rows: seq<Row>, l: nat, low: nat, high: nat): nat
    requires Counted(rows)
  {
    if rows == [] then 0
    else
      var last := rows[|rows| - 1];
      SharesBetween(rows[..|rows| - 1], l, low, high)
      + if last.ledger == l && low <= last.ordinal <= high then Share(last) else 0
  }

  /** The shares of all rows of the given sets, graded or not. */
  function SharesIn(rows: seq<Row>, ledgers: set<nat>): nat
    requires Counted(rows)
  {
    if rows == [] then 0
    else
      var last := rows[|rows| - 1];
      SharesIn(rows[..|rows| - 1], ledgers) + if last.ledger in ledgers then Share(last) else 0
  }

  function SpentIn(rows: seq<Row>, ledgers: set<nat>): nat {
    if rows == [] then 0
    else
      var front, last := rows[..|rows| - 1], rows[|rows| - 1];
      SpentIn(front, ledgers) + if last.ledger in ledgers && last.ledger !in Ledgers(front) then last.spend else 0
  }

  lemma {:induction false} RangeSplits(rows: seq<Row>, l: nat, k: nat)
    requires Counted(rows) && k >= 1
    ensures SharesBetween(rows, l, 1, k) == SharesBetween(rows, l, 1, k - 1) + SharesBetween(rows, l, k, k)
  {
    if rows != [] {
      RangeSplits(rows[..|rows| - 1], l, k);
    }
  }

  lemma {:induction false} NoneThere(rows: seq<Row>, l: nat, k: nat)
    requires Counted(rows) && forall i :: 0 <= i < |rows| ==> !(rows[i].ledger == l && rows[i].ordinal == k)
    ensures SharesBetween(rows, l, k, k) == 0
  {
    if rows != [] {
      NoneThere(rows[..|rows| - 1], l, k);
    }
  }

  lemma {:induction false} OneThere(rows: seq<Row>, i: nat)
    requires Counted(rows) && i < |rows|
    requires forall j :: 0 <= j < |rows| && j != i ==>
      !(rows[j].ledger == rows[i].ledger && rows[j].ordinal == rows[i].ordinal)
    ensures SharesBetween(rows, rows[i].ledger, rows[i].ordinal, rows[i].ordinal) == Share(rows[i])
  {
    var front := rows[..|rows| - 1];
    if i == |rows| - 1 {
      NoneThere(front, rows[i].ledger, rows[i].ordinal);
    } else {
      OneThere(front, i);
    }
  }

  lemma CompleteIsCounted(rows: seq<Row>)
    requires Complete(rows)
    ensures Counted(rows)
  {
  }

  lemma {:induction false} SetSharesUpTo(rows: seq<Row>, i: nat, k: nat)
    requires Complete(rows) && Counted(rows) && i < |rows| && k <= rows[i].count
    ensures SharesBetween(rows, rows[i].ledger, 1, k) == FirstShares(rows[i].spend, rows[i].count, k)
  {
    var l := rows[i].ledger;
    if k == 0 {
      NothingBelowOne(rows, l);
    } else {
      SetSharesUpTo(rows, i, k - 1);
      RangeSplits(rows, l, k);
      assert HasOrdinal(rows, l, k);
      var j :| 0 <= j < |rows| && rows[j].ledger == l && rows[j].ordinal == k;
      OneThere(rows, j);
      assert SameSet(rows[i], rows[j]);
    }
  }

  lemma {:induction false} NothingBelowOne(rows: seq<Row>, l: nat)
    requires Counted(rows)
    ensures SharesBetween(rows, l, 1, 0) == 0
  {
    if rows != [] {
      NothingBelowOne(rows[..|rows| - 1], l);
    }
  }

  lemma {:induction false} OneSetShares(rows: seq<Row>, l: nat, count: nat)
    requires Counted(rows) && forall i :: 0 <= i < |rows| && rows[i].ledger == l ==> 1 <= rows[i].ordinal <= count
    ensures SharesIn(rows, {l}) == SharesBetween(rows, l, 1, count)
  {
    if rows != [] {
      OneSetShares(rows[..|rows| - 1], l, count);
    }
  }

  lemma {:induction false} OneSetSpent(rows: seq<Row>, l: nat, spend: nat)
    requires forall i :: 0 <= i < |rows| && rows[i].ledger == l ==> rows[i].spend == spend
    ensures SpentIn(rows, {l}) == if l in Ledgers(rows) then spend else 0
  {
    if rows != [] {
      OneSetSpent(rows[..|rows| - 1], l, spend);
    }
  }

  lemma {:induction false} SetsSplit(rows: seq<Row>, ledgers: set<nat>, l: nat)
    requires Counted(rows) && l !in ledgers
    ensures SharesIn(rows, ledgers + {l}) == SharesIn(rows, ledgers) + SharesIn(rows, {l})
    ensures SpentIn(rows, ledgers + {l}) == SpentIn(rows, ledgers) + SpentIn(rows, {l})
  {
    if rows != [] {
      SetsSplit(rows[..|rows| - 1], ledgers, l);
    }
  }

  lemma {:induction false} NoSets(rows: seq<Row>)
    requires Counted(rows)
    ensures SharesIn(rows, {}) == 0 && SpentIn(rows, {}) == 0
  {
    if rows != [] {
      NoSets(rows[..|rows| - 1]);
    }
  }

  lemma {:induction false} LedgerHasRow(rows: seq<Row>, l: nat) returns (i: nat)
    requires l in Ledgers(rows)
    ensures i < |rows| && rows[i].ledger == l
  {
    if rows[|rows| - 1].ledger == l {
      i := |rows| - 1;
    } else {
      i := LedgerHasRow(rows[..|rows| - 1], l);
    }
  }

  lemma OneSetBalances(rows: seq<Row>, l: nat)
    requires Complete(rows) && Counted(rows) && l in Ledgers(rows)
    ensures SharesIn(rows, {l}) == SpentIn(rows, {l})
  {
    var i := LedgerHasRow(rows, l);
    var r := rows[i];
    forall j | 0 <= j < |rows| && rows[j].ledger == l ensures rows[j].count == r.count && rows[j].spend == r.spend {
      assert SameSet(rows[i], rows[j]);
    }
    OneSetShares(rows, l, r.count);
    OneSetSpent(rows, l, r.spend);
    SetSharesUpTo(rows, i, r.count);
    SharesAddUp(r.spend, r.count);
  }

  lemma {:induction false} SetsBalance(rows: seq<Row>, ledgers: set<nat>)
    requires Complete(rows) && Counted(rows) && ledgers <= Ledgers(rows)
    ensures SharesIn(rows, ledgers) == SpentIn(rows, ledgers)
    decreases |ledgers|
  {
    if ledgers == {} {
      NoSets(rows);
    } else {
      var l :| l in ledgers;
      SetsBalance(rows, ledgers - {l});
      SetsSplit(rows, ledgers - {l}, l);
      OneSetBalances(rows, l);
      assert ledgers - {l} + {l} == ledgers;
    }
  }

  lemma {:induction false} SpentIsAll(rows: seq<Row>, ledgers: set<nat>)
    requires Ledgers(rows) <= ledgers
    ensures SpentIn(rows, ledgers) == Spent(rows)
  {
    if rows != [] {
      SpentIsAll(rows[..|rows| - 1], ledgers);
    }
  }

  /** The shares of the tickets not graded yet. */
  function UngradedShares(rows: seq<Row>): nat
    requires Counted(rows)
  {
    if rows == [] then 0
    else
      var last := rows[|rows| - 1];
      UngradedShares(rows[..|rows| - 1]) + if last.graded then 0 else Share(last)
  }

  lemma {:induction false} GradedOrUngraded(rows: seq<Row>, ledgers: set<nat>)
    requires Counted(rows) && Ledgers(rows) <= ledgers
    ensures GradedSpend(rows) + UngradedShares(rows) == SharesIn(rows, ledgers)
    ensures (forall r :: r in rows ==> r.graded) ==> UngradedShares(rows) == 0
  {
    if rows != [] {
      GradedOrUngraded(rows[..|rows| - 1], ledgers);
    }
  }

  /** For complete sets the open spend is exactly the shares of the tickets not graded yet: never
      negative, and zero once all tickets are graded. */
  lemma OpenSpendIsSound(rows: seq<Row>)
    requires Complete(rows)
    ensures Counted(rows) && Spent(rows) - GradedSpend(rows) == UngradedShares(rows)
    ensures (forall r :: r in rows ==> r.graded) ==> GradedSpend(rows) == Spent(rows)
  {
    CompleteIsCounted(rows);
    SetsBalance(rows, Ledgers(rows));
    SpentIsAll(rows, Ledgers(rows));
    GradedOrUngraded(rows, Ledgers(rows));
  }

  // ---- settling prizes ----

  /** `after` differs from `before` only in that some pending prizes have been settled. */
  predicate SettledFrom(before: seq<Row>, after: seq<Row>) {
    && |after| == |before|
    && forall i :: 0 <= i < |before| ==>
         || after[i] == before[i]
         || (Unresolved(before[i]) && after[i].settled.Some? && after[i] == before[i].(settled := after[i].settled))
  }

  /** Settling pending prizes, at whatever amounts, never lowers the known net or what was won, and
      never adds a pending prize. */
  lemma {:induction false} SettlingNeverLowers(before: seq<Row>, after: seq<Row>)
    requires Counted(before) && Counted(after) && SettledFrom(before, after)
    ensures Won(before) <= Won(after) && GradedSpend(before) == GradedSpend(after)
    ensures KnownNet(before) <= KnownNet(after) && PendingCount(after) <= PendingCount(before)
  {
    if before != [] {
      var n := |before| - 1;
      assert SettledFrom(before[..n], after[..n]) && Counted(before[..n]) && Counted(after[..n]);
      SettlingNeverLowers(before[..n], after[..n]);
      assert after[n] in after && before[n] in before;
    }
  }

  /** The amounts, and the number, of the graded rows settled since. */
  function SettledAmounts(before: seq<Row>, after: seq<Row>): nat
    requires |before| == |after|
  {
    if before == [] then 0
    else
      var n := |before| - 1;
      SettledAmounts(before[..n], after[..n])
      + if before[n].graded && before[n] != after[n] && after[n].settled.Some? then after[n].settled.value else 0
  }

  function SettledCount(before: seq<Row>, after: seq<Row>): nat
    requires |before| == |after|
  {
    if before == [] then 0
    else
      var n := |before| - 1;
      SettledCount(before[..n], after[..n]) + if before[n].graded && before[n] != after[n] then 1 else 0
  }

  /** Settling adds exactly the settled amounts to what was won, and takes exactly that many prizes off
      the pending ones. */
  lemma {:induction false} SettlingAddsExactly(before: seq<Row>, after: seq<Row>)
    requires SettledFrom(before, after)
    ensures Won(after) == Won(before) + SettledAmounts(before, after)
    ensures PendingCount(after) == PendingCount(before) - SettledCount(before, after)
  {
    if before != [] {
      var n := |before| - 1;
      assert SettledFrom(before[..n], after[..n]);
      SettlingAddsExactly(before[..n], after[..n]);
    }
  }

  /** Fixed prizes of graded tickets without a settlement. */
  function FixedWinnings(rows: seq<Row>): nat {
    if rows == [] then 0
    else
      var last := rows[|rows| - 1];
      FixedWinnings(rows[..|rows| - 1])
      + match last
        case Row(_, _, _, _, true, FixedPrize(cents), None) => cents
        case _ => 0
  }

  /** Settlements of graded tickets. */
  function Settlements(rows: seq<Row>): nat {
    if rows == [] then 0
    else
      var last := rows[|rows| - 1];
      Settlements(rows[..|rows| - 1])
      + match last
        case Row(_, _, _, _, true, _, Some(cents)) => cents
        case _ => 0
  }

  /** What was won is the fixed prizes not settled otherwise, and the settlements. */
  lemma {:induction false} WinningsAreFixedOrSettled(rows: seq<Row>)
    ensures Won(rows) == FixedWinnings(rows) + Settlements(rows)
  {
    if rows != [] {
      WinningsAreFixedOrSettled(rows[..|rows| - 1]);
    }
  }

  // ---- the loop ----

  lemma TotalsMean(rows: seq<Row>)
    requires Counted(rows)
    ensures Won(rows) == FixedWinnings(rows) + Settlements(rows) && Ledgers(rows) == LedgersOf(rows)
    ensures Complete(rows) ==> Spent(rows) - GradedSpend(rows) == UngradedShares(rows)
    ensures Complete(rows) && (forall r :: r in rows ==> r.graded) ==> GradedSpend(rows) == Spent(rows)
  {
    WinningsAreFixedOrSettled(rows);
    LedgersAreAll(rows);
    if Complete(rows) {
      OpenSpendIsSound(rows);
    }
  }

  /** Accumulates the card row by row. */
  method ConfirmedScorecard(rows: seq<Row>) returns (card: Card)
    requires Counted(rows)
    ensures card.spent == Spent(rows) && card.gradedSpend == GradedSpend(rows)
    ensures card.won == Won(rows) && card.pending == PendingCount(rows) && card.entries == |LedgersOf(rows)|
    ensures card.openSpend == card.spent - card.gradedSpend && card.knownNet == card.won - card.gradedSpend
    ensures card.won == FixedWinnings(rows) + Settlements(rows)
    ensures card.net == if card.pending > 0 then None else Some(card.knownNet)
    ensures Complete(rows) ==> card.openSpend == UngradedShares(rows) >= 0
    ensures Complete(rows) && (forall r :: r in rows ==> r.graded) ==> card.openSpend == 0
  {
    var ledgers: set<nat> := {};
    var spent, graded, won, pending := 0, 0, 0, 0;
    for i := 0 to |rows|
      invariant ledgers == Ledgers(rows[..i]) && spent == Spent(rows[..i])
      invariant Counted(rows[..i]) && graded == GradedSpend(rows[..i])
      invariant won == Won(rows[..i]) && pending == PendingCount(rows[..i])
    {
      var row := rows[i];
      assert row in rows;
      assert rows[..i + 1][..i] == rows[..i];
      if row.ledger !in ledgers {
        spent := spent + row.spend;
      }
      ledgers := ledgers + {row.ledger};
      if row.graded {
        graded := graded + Share(row);
        won := won + EffectivePrize(row);
        if Unresolved(row) {
          pending := pending + 1;
        }
      }
    }
    assert rows[..|rows|] == rows;
    TotalsMean(rows);
    card := Card(|ledgers|, spent, graded, spent - graded, won, won - graded,
                 if pending > 0 then None else Some(won - graded), pending);
  }

  // ---- losing streaks ----

  /** All tickets from `i` up to `j` lost. */
  predicate Lost(hits: seq<bool>, i: nat, j: nat)
    requires i <= j <= |hits|
  {
    forall k :: i <= k < j ==> !hits[k]
  }

  /** A run of losses that reaches `n` lies within the current streak. */
  lemma StreakIsCurrent(hits: seq<bool>, i: nat, j: nat, n: nat, current: nat)
    requires i <= j <= n <= |hits| && Lost(hits, i, j) && current <= n && (current < n ==> hits[n - current - 1])
    ensures j == n ==> j - i <= current
  {
  }

  /** The longest run of losing tickets: there is one of that length, and none is longer. */
  method LongestLosingStreak(hits: seq<bool>) returns (longest: nat, ghost at: nat)
    ensures at + longest <= |hits| && Lost(hits, at, at + longest)
    ensures forall i, j :: 0 <= i <= j <= |hits| && Lost(hits, i, j) ==> j - i <= longest
  {
    var current: nat := 0;
    longest, at := 0, 0;
    for n := 0 to |hits|
      invariant current <= n && Lost(hits, n - current, n)
      invariant current < n ==> hits[n - current - 1]
      invariant current <= longest && at + longest <= n && Lost(hits, at, at + longest)
      invariant forall i, j :: 0 <= i <= j <= n && Lost(hits, i, j) ==> j - i <= longest
    {
      if hits[n] {
        current := 0;
      } else {
        current := current + 1;
        if current > longest {
          longest, at := current, n + 1 - current;
        }
      }
      forall i, j | 0 <= i <= j <= n + 1 && Lost(hits, i, j) ensures j - i <= longest {
        StreakIsCurrent(hits, i, j, n + 1, current);
      }
    }
  }
}
