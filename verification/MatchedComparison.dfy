/**
 * The matched comparison: from every stratum that all origins share, the same number of graded
 * tickets of each origin, chosen by ticket id.
 */
module MatchedComparison {

  datatype Origin = System | Random | User

  /** A ticket; `id` orders tickets by ledger and ordinal, `stratum` stands for game, date and session. */
  datatype Row = Row(origin: Origin, stratum: nat, id: nat, eligible: bool, graded: bool)

  predicate Kept(r: Row) {
    r.eligible && r.graded
  }

  predicate HasUser(rows: seq<Row>) {
    exists r :: r in rows && Kept(r) && r.origin == User
  }

  function Origins(rows: seq<Row>): seq<Origin> {
    if HasUser(rows) then [System, Random, User] else [System, Random]
  }

  predicate In(r: Row, stratum: nat, origin: Origin) {
    Kept(r) && r.stratum == stratum && r.origin == origin
  }

  /** The graded tickets of one origin in one stratum, in row order. */
  function Bucket(rows: seq<Row>, stratum: nat, origin: Origin): seq<Row> {
    if rows == [] then []
    else
      var front, last := Bucket(rows[..|rows| - 1], stratum, origin), rows[|rows| - 1];
      if In(last, stratum, origin) then front + [last] else front
  }

  // ---- sorting ----

  function InsertRow(r: Row, sorted: seq<Row>): seq<Row> {
    if sorted == [] || r.id <= sorted[0].id then [r] + sorted else [sorted[0]] + InsertRow(r, sorted[1..])
  }

  function SortRows(rows: seq<Row>): seq<Row> {
    if rows == [] then [] else InsertRow(rows[0], SortRows(rows[1..]))
  }

  function InsertStratum(x: nat, sorted: seq<nat>): seq<nat> {
    if sorted == [] || x < sorted[0] then [x] + sorted
    else if x == sorted[0] then sorted
    else [sorted[0]] + InsertStratum(x, sorted[1..])
  }

  /** The strata with a graded ticket, in order. */
  function Strata(rows: seq<Row>): seq<nat> {
    if rows == [] then []
    else
      var front, last := Strata(rows[..|rows| - 1]), rows[|rows| - 1];
      if Kept(last) then InsertStratum(last.stratum, front) else front
  }

  // ---- selection ----

  function Least(rows: seq<Row>, stratum: nat, origins: seq<Origin>): nat
    requires origins != []
  {
    var n := |Bucket(rows, stratum, origins[0])|;
    if |origins| == 1 then n
    else
      var m := Least(rows, stratum, origins[1..]);
      if n < m then n else m
  }

  /** How many tickets every origin contributes in a stratum; none when some origin has none there. */
  function Quota(rows: seq<Row>, stratum: nat): nat {
    Least(rows, stratum, Origins(rows))
  }

  function Chosen(rows: seq<Row>, stratum: nat, origin: Origin): seq<Row> {
    var sorted := SortRows(Bucket(rows, stratum, origin));
    if Quota(rows, stratum) <= |sorted| then sorted[..Quota(rows, stratum)] else sorted
  }

  function SelectedFrom(rows: seq<Row>, strata: seq<nat>, origin: Origin): seq<Row> {
    if strata == [] then []
    else SelectedFrom(rows, strata[..|strata| - 1], origin) + Chosen(rows, strata[|strata| - 1], origin)
  }

  function Selected(rows: seq<Row>, origin: Origin): seq<Row> {
    SelectedFrom(rows, Strata(rows), origin)
  }

  // ---- equal numbers ----

  lemma {:induction false} SortKeeps(rows: seq<Row>)
    ensures |SortRows(rows)| == |rows| && multiset(SortRows(rows)) == multiset(rows)
  {
    if rows != [] {
      SortKeeps(rows[1..]);
      InsertKeeps(rows[0], SortRows(rows[1..]));
      assert rows == [rows[0]] + rows[1..];
    }
  }

  lemma {:induction false} InsertKeeps(r: Row, sorted: seq<Row>)
    ensures |InsertRow(r, sorted)| == |sorted| + 1
    ensures multiset(InsertRow(r, sorted)) == multiset(sorted) + multiset{r}
  {
    if sorted != [] && r.id > sorted[0].id {
      InsertKeeps(r, sorted[1..]);
      assert sorted == [sorted[0]] + sorted[1..];
    }
  }

  lemma {:induction false} LeastIsLeast(rows: seq<Row>, stratum: nat, origins: seq<Origin>)
    requires origins != []
    ensures forall o :: o in origins ==> Least(rows, stratum, origins) <= |Bucket(rows, stratum, o)|
    ensures exists o :: o in origins && Least(rows, stratum, origins) == |Bucket(rows, stratum, o)|
  {
    if |origins| == 1 {
      assert origins[0] in origins;
    } else {
      LeastIsLeast(rows, stratum, origins[1..]);
      assert origins == [origins[0]] + origins[1..];
      if |Bucket(rows, stratum, origins[0])| < Least(rows, stratum, origins[1..]) {
        assert origins[0] in origins;
      } else {
        var o :| o in origins[1..] && Least(rows, stratum, origins[1..]) == |Bucket(rows, stratum, o)|;
        assert o in origins;
      }
    }
  }

  /** In every stratum, each compared origin contributes the same number of tickets: as many as the
      origin with the fewest has there. */
  lemma EqualInEveryStratum(rows: seq<Row>, stratum: nat, origin: Origin)
    requires origin in Origins(rows)
    ensures |Chosen(rows, stratum, origin)| == Quota(rows, stratum)
    ensures Quota(rows, stratum) == 0 <==> exists o :: o in Origins(rows) && Bucket(rows, stratum, o) == []
  {
    LeastIsLeast(rows, stratum, Origins(rows));
    SortKeeps(Bucket(rows, stratum, origin));
  }

  function QuotaSum(rows: seq<Row>, strata: seq<nat>): nat {
    if strata == [] then 0 else QuotaSum(rows, strata[..|strata| - 1]) + Quota(rows, strata[|strata| - 1])
  }

  lemma {:induction false} SelectedCount(rows: seq<Row>, strata: seq<nat>, origin: Origin)
    requires origin in Origins(rows)
    ensures |SelectedFrom(rows, strata, origin)| == QuotaSum(rows, strata)
  {
    if strata != [] {
      SelectedCount(rows, strata[..|strata| - 1], origin);
      EqualInEveryStratum(rows, strata[|strata| - 1], origin);
    }
  }

  /** All compared origins get the same total. */
  lemma EqualTotals(rows: seq<Row>, a: Origin, b: Origin)
    requires a in Origins(rows) && b in Origins(rows)
    ensures |Selected(rows, a)| == |Selected(rows, b)|
  {
    SelectedCount(rows, Strata(rows), a);
    SelectedCount(rows, Strata(rows), b);
  }

  // ---- the order of the rows does not matter ----

  /** Every ticket occurs once, and no two tickets share an id. */
  ghost predicate Unique(rows: multiset<Row>) {
    && (forall r :: r in rows ==> rows[r] == 1)
    && (forall q, r :: q in rows && r in rows && q.id == r.id ==> q == r)
  }

  predicate SameRows(a: seq<Row>, b: seq<Row>) {
    multiset(a) == multiset(b)
  }

  lemma {:induction false} BucketCount(rows: seq<Row>, stratum: nat, origin: Origin, r: Row)
    ensures multiset(Bucket(rows, stratum, origin))[r] == if In(r, stratum, origin) then multiset(rows)[r] else 0
  {
    if rows != [] {
      BucketCount(rows[..|rows| - 1], stratum, origin, r);
      assert rows == rows[..|rows| - 1] + [rows[|rows| - 1]];
    }
  }

  lemma SameBuckets(a: seq<Row>, b: seq<Row>, stratum: nat, origin: Origin)
    requires SameRows(a, b)
    ensures SameRows(Bucket(a, stratum, origin), Bucket(b, stratum, origin))
    ensures |Bucket(a, stratum, origin)| == |Bucket(b, stratum, origin)|
  {
    forall r ensures multiset(Bucket(a, stratum, origin))[r] == multiset(Bucket(b, stratum, origin))[r] {
      BucketCount(a, stratum, origin, r);
      BucketCount(b, stratum, origin, r);
    }
    assert multiset(Bucket(a, stratum, origin)) == multiset(Bucket(b, stratum, origin));
    assert |multiset(Bucket(a, stratum, origin))| == |multiset(Bucket(b, stratum, origin))|;
  }

  lemma SameMembers(a: seq<Row>, b: seq<Row>, r: Row)
    requires SameRows(a, b)
    ensures r in a <==> r in b
  {
    assert r in a <==> r in multiset(a);
    assert r in b <==> r in multiset(b);
  }

  lemma SameOrigins(a: seq<Row>, b: seq<Row>)
    requires SameRows(a, b)
    ensures Origins(a) == Origins(b)
  {
    forall r ensures r in a <==> r in b {
      SameMembers(a, b, r);
    }
  }

  lemma SameQuota(a: seq<Row>, b: seq<Row>, stratum: nat)
    requires SameRows(a, b)
    ensures Quota(a, stratum) == Quota(b, stratum)
  {
    SameOrigins(a, b);
    SameLeast(a, b, stratum, Origins(a));
  }

  lemma {:induction false} SameLeast(a: seq<Row>, b: seq<Row>, stratum: nat, origins: seq<Origin>)
    requires SameRows(a, b) && origins != []
    ensures Least(a, stratum, origins) == Least(b, stratum, origins)
  {
    SameBuckets(a, b, stratum, origins[0]);
    if |origins| > 1 {
      SameLeast(a, b, stratum, origins[1..]);
    }
  }

  predicate Ascending(rows: seq<Row>) {
    rows != [] ==> (forall r :: r in rows[1..] ==> rows[0].id < r.id) && Ascending(rows[1..])
  }

  lemma {:induction false} InsertAscends(r: Row, sorted: seq<Row>)
    requires Ascending(sorted) && forall q :: q in sorted ==> q.id != r.id
    ensures Ascending(InsertRow(r, sorted))
  {
    if sorted == [] || r.id <= sorted[0].id {
      assert ([r] + sorted)[1..] == sorted;
    } else {
      var rest := InsertRow(r, sorted[1..]);
      InsertAscends(r, sorted[1..]);
      InsertKeeps(r, sorted[1..]);
      forall q | q in rest ensures sorted[0].id < q.id {
        assert q in multiset(rest);
      }
      assert ([sorted[0]] + rest)[1..] == rest;
    }
  }

  lemma {:induction false} SortAscends(rows: seq<Row>)
    requires Unique(multiset(rows))
    ensures Ascending(SortRows(rows))
  {
    if rows != [] {
      var first, rest := rows[0], rows[1..];
      assert rows == [first] + rest;
      assert multiset(rows) == multiset{first} + multiset(rest);
      forall r | r in multiset(rest) ensures multiset(rest)[r] == 1 && r != first && r.id != first.id {
        assert multiset(rows)[r] == multiset(rest)[r] + if r == first then 1 else 0;
        assert r in multiset(rows) && first in multiset(rows);
      }
      assert forall r :: r in multiset(rest) ==> r in multiset(rows);
      assert Unique(multiset(rest));
      SortAscends(rest);
      SortKeeps(rest);
      forall q | q in SortRows(rest) ensures q.id != first.id {
        assert q in multiset(SortRows(rest));
      }
      InsertAscends(first, SortRows(rest));
    }
  }

  lemma SameFirst(a: seq<Row>, b: seq<Row>)
    requires Ascending(a) && Ascending(b) && SameRows(a, b) && a != [] && b != []
    ensures a[0] == b[0]
  {
    SameMembers(a, b, a[0]);
    SameMembers(a, b, b[0]);
    assert a == [a[0]] + a[1..] && b == [b[0]] + b[1..];
  }

  lemma SameRest(a: seq<Row>, b: seq<Row>)
    requires SameRows(a, b) && a != [] && b != [] && a[0] == b[0]
    ensures SameRows(a[1..], b[1..])
  {
    assert a == [a[0]] + a[1..] && b == [b[0]] + b[1..];
    assert multiset(a[1..]) == multiset(a) - multiset{a[0]};
    assert multiset(b[1..]) == multiset(b) - multiset{b[0]};
  }

  /** A set of tickets has one ascending arrangement. */
  lemma {:induction false} AscendingIsUnique(a: seq<Row>, b: seq<Row>)
    requires Ascending(a) && Ascending(b) && SameRows(a, b)
    ensures a == b
  {
    assert |multiset(a)| == |multiset(b)|;
    if a != [] {
      SameFirst(a, b);
      SameRest(a, b);
      AscendingIsUnique(a[1..], b[1..]);
      assert a == [a[0]] + a[1..] && b == [b[0]] + b[1..];
    }
  }

  lemma SameChosen(a: seq<Row>, b: seq<Row>, stratum: nat, origin: Origin)
    requires SameRows(a, b) && Unique(multiset(a))
    ensures Chosen(a, stratum, origin) == Chosen(b, stratum, origin)
  {
    var p, q := Bucket(a, stratum, origin), Bucket(b, stratum, origin);
    SameBuckets(a, b, stratum, origin);
    BucketIsUnique(a, stratum, origin);
    SortAscends(p);
    SortAscends(q);
    SortKeeps(p);
    SortKeeps(q);
    AscendingIsUnique(SortRows(p), SortRows(q));
    SameQuota(a, b, stratum);
  }

  predicate AscendingStrata(ns: seq<nat>) {
    ns != [] ==> (forall n :: n in ns[1..] ==> ns[0] < n) && AscendingStrata(ns[1..])
  }

  lemma {:induction false} InsertStratumAdds(x: nat, ns: seq<nat>)
    requires AscendingStrata(ns)
    ensures AscendingStrata(InsertStratum(x, ns))
    ensures forall n :: n in InsertStratum(x, ns) <==> n in ns || n == x
  {
    if ns == [] || x < ns[0] {
      assert ([x] + ns)[1..] == ns;
      assert ns != [] ==> ns == [ns[0]] + ns[1..];
    } else if x > ns[0] {
      InsertStratumAdds(x, ns[1..]);
      assert ns == [ns[0]] + ns[1..];
      assert ([ns[0]] + InsertStratum(x, ns[1..]))[1..] == InsertStratum(x, ns[1..]);
    }
  }

  lemma {:induction false} StrataAre(rows: seq<Row>)
    ensures AscendingStrata(Strata(rows))
    ensures forall n :: n in Strata(rows) <==> exists r :: r in rows && Kept(r) && r.stratum == n
  {
    if rows != [] {
      var front, last := rows[..|rows| - 1], rows[|rows| - 1];
      StrataAre(front);
      InsertStratumAdds(last.stratum, Strata(front));
      assert rows == front + [last];
    }
  }

  lemma {:induction false} AscendingStrataIsUnique(a: seq<nat>, b: seq<nat>)
    requires AscendingStrata(a) && AscendingStrata(b) && forall n :: n in a <==> n in b
    ensures a == b
  {
    assert |b| > 0 ==> b[0] in a;
    if a != [] {
      assert a[0] in b && b[0] in a;
      assert a == [a[0]] + a[1..] && b == [b[0]] + b[1..];
      assert a[0] == b[0];
      forall n ensures n in a[1..] <==> n in b[1..] {
        assert n in a[1..] <==> n in a && n != a[0];
        assert n in b[1..] <==> n in b && n != b[0];
      }
      AscendingStrataIsUnique(a[1..], b[1..]);
    }
  }

  lemma SameStrata(a: seq<Row>, b: seq<Row>)
    requires SameRows(a, b)
    ensures Strata(a) == Strata(b)
  {
    StrataAre(a);
    StrataAre(b);
    forall r ensures r in a <==> r in b {
      SameMembers(a, b, r);
    }
    AscendingStrataIsUnique(Strata(a), Strata(b));
  }

  lemma {:induction false} SameSelectedFrom(a: seq<Row>, b: seq<Row>, strata: seq<nat>, origin: Origin)
    requires SameRows(a, b) && Unique(multiset(a))
    ensures SelectedFrom(a, strata, origin) == SelectedFrom(b, strata, origin)
  {
    if strata != [] {
      SameSelectedFrom(a, b, strata[..|strata| - 1], origin);
      SameChosen(a, b, strata[|strata| - 1], origin);
    }
  }

  /** Every permutation of the rows gives the same selection. */
  lemma OrderDoesNotMatter(a: seq<Row>, b: seq<Row>, origin: Origin)
    requires SameRows(a, b) && Unique(multiset(a))
    ensures Origins(a) == Origins(b) && Selected(a, origin) == Selected(b, origin)
  {
    SameOrigins(a, b);
    SameStrata(a, b);
    SameSelectedFrom(a, b, Strata(a), origin);
  }

  lemma {:induction false} AscendingAt(rows: seq<Row>, i: nat, j: nat)
    requires Ascending(rows) && i < j < |rows|
    ensures rows[i].id < rows[j].id
  {
    if i == 0 {
      assert rows[j] == rows[1..][j - 1];
    } else {
      AscendingAt(rows[1..], i - 1, j - 1);
    }
  }

  lemma SortedMembers(rows: seq<Row>, stratum: nat, origin: Origin, x: Row)
    ensures x in SortRows(Bucket(rows, stratum, origin)) <==> x in rows && In(x, stratum, origin)
  {
    var bucket := Bucket(rows, stratum, origin);
    SortKeeps(bucket);
    BucketCount(rows, stratum, origin, x);
    assert x in SortRows(bucket) <==> x in multiset(SortRows(bucket));
    assert x in rows <==> x in multiset(rows);
  }

  lemma BucketIsUnique(rows: seq<Row>, stratum: nat, origin: Origin)
    requires Unique(multiset(rows))
    ensures Unique(multiset(Bucket(rows, stratum, origin)))
  {
    var bucket := Bucket(rows, stratum, origin);
    forall r ensures multiset(bucket)[r] <= multiset(rows)[r] {
      BucketCount(rows, stratum, origin, r);
    }
  }

  /** In an ascending list, what a prefix holds comes before what it leaves out. */
  lemma PrefixIsLowest(sorted: seq<Row>, n: nat, r: Row, q: Row)
    requires Ascending(sorted) && n <= |sorted| && r in sorted[..n] && q in sorted && q !in sorted[..n]
    ensures r.id < q.id
  {
    var i :| 0 <= i < n && sorted[i] == r;
    assert sorted == sorted[..n] + sorted[n..];
    var j :| 0 <= j < |sorted[n..]| && sorted[n..][j] == q;
    AscendingAt(sorted, i, n + j);
  }

  /** Chosen tickets are graded tickets of that stratum and origin, and have the lowest ids there. */
  lemma ChosenAreLowest(rows: seq<Row>, stratum: nat, origin: Origin, r: Row, q: Row)
    requires Unique(multiset(rows)) && r in Chosen(rows, stratum, origin)
    ensures r in rows && In(r, stratum, origin)
    ensures q in rows && In(q, stratum, origin) && q !in Chosen(rows, stratum, origin) ==> r.id < q.id
  {
    var sorted, n := SortRows(Bucket(rows, stratum, origin)), |Chosen(rows, stratum, origin)|;
    assert Chosen(rows, stratum, origin) == sorted[..n];
    SortedMembers(rows, stratum, origin, r);
    SortedMembers(rows, stratum, origin, q);
    BucketIsUnique(rows, stratum, origin);
    SortAscends(Bucket(rows, stratum, origin));
    if q in sorted && q !in sorted[..n] {
      PrefixIsLowest(sorted, n, r, q);
    }
  }

  // ---- which tickets are selected ----

  /** The eligible, graded tickets of one origin in one stratum. */
  ghost function Tickets(rows: seq<Row>, stratum: nat, origin: Origin): set<Row> {
    set r | r in rows && r.eligible && r.graded && r.stratum == stratum && r.origin == origin
  }

  ghost function Members(rows: seq<Row>): set<Row> {
    set r | r in rows
  }

  lemma {:induction false} PrefixSize(sorted: seq<Row>, i: nat)
    requires Ascending(sorted) && i <= |sorted|
    ensures |Members(sorted[..i])| == i
  {
    if i > 0 {
      PrefixSize(sorted, i - 1);
      forall j | 0 <= j < i - 1 ensures sorted[j] != sorted[i - 1] {
        AscendingAt(sorted, j, i - 1);
      }
      assert sorted[..i] == sorted[..i - 1] + [sorted[i - 1]];
      assert Members(sorted[..i]) == Members(sorted[..i - 1]) + {sorted[i - 1]};
    }
  }

  ghost function LowerIn(tickets: set<Row>, r: Row): set<Row> {
    set q | q in tickets && q.id < r.id
  }

  lemma PrefixIsLower(sorted: seq<Row>, i: nat)
    requires Ascending(sorted) && i < |sorted|
    ensures LowerIn(Members(sorted), sorted[i]) == Members(sorted[..i])
  {
    forall q | q in sorted ensures q.id < sorted[i].id <==> q in sorted[..i] {
      var j :| 0 <= j < |sorted| && sorted[j] == q;
      if j < i {
        AscendingAt(sorted, j, i);
        assert sorted[..i][j] == q;
      } else {
        if i < j {
          AscendingAt(sorted, i, j);
        }
        forall k | 0 <= k < i ensures sorted[k] != q {
          AscendingAt(sorted, k, j);
        }
      }
    }
    forall q | q in sorted[..i] ensures q in sorted {
    }
  }

  /** The sorted bucket lists the tickets, each once. */
  lemma BucketIsTickets(rows: seq<Row>, stratum: nat, origin: Origin)
    requires Unique(multiset(rows))
    ensures var sorted := SortRows(Bucket(rows, stratum, origin));
      && Ascending(sorted) && Members(sorted) == Tickets(rows, stratum, origin)
      && |Bucket(rows, stratum, origin)| == |sorted| == |Tickets(rows, stratum, origin)|
  {
    var sorted := SortRows(Bucket(rows, stratum, origin));
    BucketIsUnique(rows, stratum, origin);
    SortAscends(Bucket(rows, stratum, origin));
    SortKeeps(Bucket(rows, stratum, origin));
    forall r ensures r in Members(sorted) <==> r in Tickets(rows, stratum, origin) {
      SortedMembers(rows, stratum, origin, r);
    }
    PrefixSize(sorted, |sorted|);
    assert sorted[..|sorted|] == sorted;
  }

  /** The quota is the size of the smallest of the compared cohorts. */
  lemma QuotaIsSmallestCohort(rows: seq<Row>, stratum: nat)
    requires Unique(multiset(rows))
    ensures forall o :: o in Origins(rows) ==> Quota(rows, stratum) <= |Tickets(rows, stratum, o)|
    ensures exists o :: o in Origins(rows) && Quota(rows, stratum) == |Tickets(rows, stratum, o)|
  {
    LeastIsLeast(rows, stratum, Origins(rows));
    forall o ensures |Bucket(rows, stratum, o)| == |Tickets(rows, stratum, o)| {
      BucketIsTickets(rows, stratum, o);
    }
  }

  lemma ChosenExactly(rows: seq<Row>, stratum: nat, origin: Origin, r: Row)
    requires Unique(multiset(rows)) && origin in Origins(rows)
    ensures r in Chosen(rows, stratum, origin) <==>
      var tickets := Tickets(rows, stratum, origin);
      r in tickets && |LowerIn(tickets, r)| < Quota(rows, stratum)
  {
    var sorted := SortRows(Bucket(rows, stratum, origin));
    BucketIsTickets(rows, stratum, origin);
    EqualInEveryStratum(rows, stratum, origin);
    assert r in Members(sorted) <==> r in sorted;
    if r in sorted {
      var i :| 0 <= i < |sorted| && sorted[i] == r;
      PrefixIsLower(sorted, i);
      PrefixSize(sorted, i);
      OnlyAt(sorted, i, Quota(rows, stratum));
    }
  }

  lemma OnlyAt(sorted: seq<Row>, i: nat, n: nat)
    requires Ascending(sorted) && i < |sorted| && n <= |sorted|
    ensures sorted[i] in sorted[..n] <==> i < n
  {
    if i < n {
      assert sorted[..n][i] == sorted[i];
    } else {
      forall j | 0 <= j < n ensures sorted[j] != sorted[i] {
        AscendingAt(sorted, j, i);
      }
    }
  }

  lemma {:induction false} SelectedFromStratum(rows: seq<Row>, strata: seq<nat>, origin: Origin, r: Row)
    requires Unique(multiset(rows)) && origin in Origins(rows)
    ensures r in SelectedFrom(rows, strata, origin) <==> r.stratum in strata && r in Chosen(rows, r.stratum, origin)
  {
    if strata != [] {
      var front, last := strata[..|strata| - 1], strata[|strata| - 1];
      SelectedFromStratum(rows, front, origin, r);
      ChosenExactly(rows, last, origin, r);
      assert strata == front + [last];
    }
  }

  /** An eligible, graded ticket of that origin, with fewer of them in its stratum below its id than
      the smallest compared cohort has tickets. */
  ghost predicate AmongLowest(rows: seq<Row>, origin: Origin, r: Row) {
    var tickets := Tickets(rows, r.stratum, origin);
    r in tickets && |LowerIn(tickets, r)| < Quota(rows, r.stratum)
  }

  lemma SelectedIfLowest(rows: seq<Row>, origin: Origin, r: Row)
    requires Unique(multiset(rows)) && origin in Origins(rows)
    ensures r in Selected(rows, origin) <==> AmongLowest(rows, origin, r)
  {
    SelectedFromStratum(rows, Strata(rows), origin, r);
    ChosenExactly(rows, r.stratum, origin, r);
    StrataAre(rows);
  }

  ghost predicate HoldsLowest(selected: seq<Row>, rows: seq<Row>, origin: Origin) {
    forall r :: r in selected <==> AmongLowest(rows, origin, r)
  }

  /** Exactly those tickets are selected. */
  lemma SelectedExactly(rows: seq<Row>, origin: Origin)
    requires Unique(multiset(rows)) && origin in Origins(rows)
    ensures HoldsLowest(Selected(rows, origin), rows, origin)
  {
    forall r ensures r in Selected(rows, origin) <==> AmongLowest(rows, origin, r) {
      SelectedIfLowest(rows, origin, r);
    }
  }

  // ---- the loops ----

  method AnyUser(rows: seq<Row>) returns (user: bool)
    ensures user <==> HasUser(rows)
  {
    user := false;
    for i := 0 to |rows|
      invariant user <==> HasUser(rows[..i])
    {
      assert rows[..i + 1] == rows[..i] + [rows[i]];
      if Kept(rows[i]) && rows[i].origin == User {
        user := true;
        assert rows[i] in rows[..i + 1];
      }
    }
    assert rows[..|rows|] == rows;
  }

  /** Graded tickets by stratum and origin. */
  type Groups = map<nat, map<Origin, seq<Row>>>

  function Cohort(groups: Groups, stratum: nat, origin: Origin): seq<Row> {
    if stratum in groups && origin in groups[stratum] then groups[stratum][origin] else []
  }

  ghost predicate GroupsOf(groups: Groups, rows: seq<Row>) {
    && (forall n :: n in groups <==> n in Strata(rows))
    && (forall n, o :: Cohort(groups, n, o) == Bucket(rows, n, o))
  }

  /** Appends a ticket to its bucket, creating the bucket and its stratum when they are missing. */
  function WithRow(groups: Groups, r: Row): Groups {
    var byOrigin := if r.stratum in groups then groups[r.stratum] else map[];
    var bucket := if r.origin in byOrigin then byOrigin[r.origin] else [];
    groups[r.stratum := byOrigin[r.origin := bucket + [r]]]
  }

  lemma WithRowGroups(groups: Groups, rows: seq<Row>, r: Row)
    requires GroupsOf(groups, rows)
    ensures GroupsOf(if Kept(r) then WithRow(groups, r) else groups, rows + [r])
  {
    assert (rows + [r])[..|rows|] == rows;
    StrataAre(rows);
    InsertStratumAdds(r.stratum, Strata(rows));
    forall n, o
      ensures Cohort(if Kept(r) then WithRow(groups, r) else groups, n, o) == Bucket(rows + [r], n, o)
    {
      assert Cohort(groups, n, o) == Bucket(rows, n, o);
    }
  }

  method GroupRows(rows: seq<Row>) returns (groups: Groups)
    ensures GroupsOf(groups, rows)
  {
    groups := map[];
    for i := 0 to |rows|
      invariant GroupsOf(groups, rows[..i])
    {
      WithRowGroups(groups, rows[..i], rows[i]);
      assert rows[..i + 1] == rows[..i] + [rows[i]];
      if Kept(rows[i]) {
        groups := WithRow(groups, rows[i]);
      }
    }
    assert rows[..|rows|] == rows;
  }

  method SortKeys(keys: set<nat>) returns (sorted: seq<nat>)
    ensures AscendingStrata(sorted) && forall n :: n in sorted <==> n in keys
  {
    var left := keys;
    sorted := [];
    while left != {}
      invariant left <= keys && AscendingStrata(sorted)
      invariant forall n :: n in sorted <==> n in keys && n !in left
      decreases |left|
    {
      var n :| n in left;
      InsertStratumAdds(n, sorted);
      sorted := InsertStratum(n, sorted);
      left := left - {n};
    }
  }

  /** The smallest cohort of a stratum. */
  method SmallestCohort(groups: Groups, stratum: nat, origins: seq<Origin>, ghost rows: seq<Row>) returns (count: nat)
    requires GroupsOf(groups, rows) && origins != []
    ensures count == Least(rows, stratum, origins)
  {
    var last := |origins| - 1;
    count := |Cohort(groups, stratum, origins[last])|;
    for i := last downto 0
      invariant count == Least(rows, stratum, origins[i..])
    {
      var size := |Cohort(groups, stratum, origins[i])|;
      assert origins[i..][1..] == origins[i + 1..];
      if size < count {
        count := size;
      }
    }
    assert origins[0..] == origins;
  }

  predicate DistinctOrigins(origins: seq<Origin>) {
    forall i, j :: 0 <= i < j < |origins| ==> origins[i] != origins[j]
  }

  /** Adds every origin's first `count` tickets of a stratum, by ticket id. */
  method PushCohorts(selected: map<Origin, seq<Row>>, groups: Groups, stratum: nat, origins: seq<Origin>, count: nat,
                     ghost rows: seq<Row>)
    returns (more: map<Origin, seq<Row>>)
    requires GroupsOf(groups, rows) && DistinctOrigins(origins) && origins == Origins(rows)
    requires count == Quota(rows, stratum)
    requires forall o :: o in origins ==> o in selected
    ensures forall o :: o in origins ==> o in more && more[o] == selected[o] + Chosen(rows, stratum, o)
  {
    more := selected;
    for i := 0 to |origins|
      invariant forall o :: o in origins ==> o in more
      invariant forall j :: 0 <= j < i ==> more[origins[j]] == selected[origins[j]] + Chosen(rows, stratum, origins[j])
      invariant forall j :: i <= j < |origins| ==> more[origins[j]] == selected[origins[j]]
    {
      var o := origins[i];
      assert o in origins;
      var sorted := SortRows(Cohort(groups, stratum, o));
      EqualInEveryStratum(rows, stratum, o);
      SortKeeps(Bucket(rows, stratum, o));
      LeastIsLeast(rows, stratum, origins);
      more := more[o := more[o] + sorted[..count]];
    }
  }

  /** How many strata every compared origin shares. */
  function Shared(rows: seq<Row>, strata: seq<nat>): nat {
    if strata == [] then 0
    else Shared(rows, strata[..|strata| - 1]) + if Quota(rows, strata[|strata| - 1]) >= 1 then 1 else 0
  }

  /** The strata in which every compared origin has a graded ticket. */
  ghost function SharedStrata(rows: seq<Row>, strata: seq<nat>): set<nat> {
    set n | n in strata && forall o :: o in Origins(rows) ==> Bucket(rows, n, o) != []
  }

  lemma {:induction false} SharedIsCount(rows: seq<Row>, strata: seq<nat>)
    requires forall i, j :: 0 <= i < j < |strata| ==> strata[i] != strata[j]
    ensures Shared(rows, strata) == |SharedStrata(rows, strata)|
  {
    if strata != [] {
      var front, last := strata[..|strata| - 1], strata[|strata| - 1];
      SharedIsCount(rows, front);
      SharedStep(rows, front, last);
      assert strata == front + [last];
    }
  }

  lemma SharedStep(rows: seq<Row>, front: seq<nat>, last: nat)
    requires last !in front
    ensures |SharedStrata(rows, front + [last])|
      == |SharedStrata(rows, front)| + if Quota(rows, last) >= 1 then 1 else 0
  {
    assert System in Origins(rows);
    EqualInEveryStratum(rows, last, System);
    var before := SharedStrata(rows, front);
    assert SharedStrata(rows, front + [last]) == before + if Quota(rows, last) >= 1 then {last} else {};
  }

  lemma {:induction false} AscendingStrataDiffer(ns: seq<nat>, i: nat, j: nat)
    requires AscendingStrata(ns) && i < j < |ns|
    ensures ns[i] < ns[j]
  {
    if i == 0 {
      assert ns[j] == ns[1..][j - 1] && ns[j] in ns[1..];
    } else {
      AscendingStrataDiffer(ns[1..], i - 1, j - 1);
    }
  }

  lemma SharedStrataAreCounted(rows: seq<Row>)
    ensures Shared(rows, Strata(rows)) == |SharedStrata(rows, Strata(rows))|
  {
    StrataAre(rows);
    forall i, j | 0 <= i < j < |Strata(rows)| ensures Strata(rows)[i] != Strata(rows)[j] {
      AscendingStrataDiffer(Strata(rows), i, j);
    }
    SharedIsCount(rows, Strata(rows));
  }

  /** A stratum that some origin lacks contributes nothing. */
  lemma NothingChosen(rows: seq<Row>, stratum: nat, origin: Origin)
    requires origin in Origins(rows) && Quota(rows, stratum) == 0
    ensures Chosen(rows, stratum, origin) == []
  {
    EqualInEveryStratum(rows, stratum, origin);
  }

  ghost predicate SelectedSoFar(selected: map<Origin, seq<Row>>, rows: seq<Row>, strata: seq<nat>) {
    forall o :: o in Origins(rows) ==> o in selected && selected[o] == SelectedFrom(rows, strata, o)
  }

  lemma OneMoreStratum(before: map<Origin, seq<Row>>, after: map<Origin, seq<Row>>, rows: seq<Row>, strata: seq<nat>,
                       n: nat)
    requires SelectedSoFar(before, rows, strata)
    requires if Quota(rows, n) >= 1
      then forall o :: o in Origins(rows) ==> o in after && after[o] == before[o] + Chosen(rows, n, o)
      else after == before
    ensures SelectedSoFar(after, rows, strata + [n])
    ensures Shared(rows, strata + [n]) == Shared(rows, strata) + if Quota(rows, n) >= 1 then 1 else 0
  {
    assert (strata + [n])[..|strata|] == strata;
    forall o | o in Origins(rows) ensures o in after && after[o] == SelectedFrom(rows, strata + [n], o) {
      if Quota(rows, n) == 0 {
        NothingChosen(rows, n, o);
      }
    }
  }

  /** Walks the strata in order and takes the same number of tickets from every origin. */
  method SelectStrata(groups: Groups, strata: seq<nat>, origins: seq<Origin>, ghost rows: seq<Row>)
    returns (byOrigin: map<Origin, seq<Row>>, sharedStrata: nat)
    requires GroupsOf(groups, rows) && origins == Origins(rows) && DistinctOrigins(origins)
    ensures SelectedSoFar(byOrigin, rows, strata) && sharedStrata == Shared(rows, strata)
  {
    byOrigin := map[System := [], Random := [], User := []];
    sharedStrata := 0;
    for i := 0 to |strata|
      invariant SelectedSoFar(byOrigin, rows, strata[..i]) && sharedStrata == Shared(rows, strata[..i])
    {
      var count := SmallestCohort(groups, strata[i], origins, rows);
      ghost var before := byOrigin;
      if count >= 1 {
        sharedStrata := sharedStrata + 1;
        byOrigin := PushCohorts(byOrigin, groups, strata[i], origins, count, rows);
      }
      OneMoreStratum(before, byOrigin, rows, strata[..i], strata[i]);
      assert strata[..i + 1] == strata[..i] + [strata[i]];
    }
    assert strata[..|strata|] == strata;
  }

  lemma KeysAreStrata(groups: Groups, rows: seq<Row>, sorted: seq<nat>)
    requires GroupsOf(groups, rows) && AscendingStrata(sorted) && forall n :: n in sorted <==> n in groups.Keys
    ensures sorted == Strata(rows)
  {
    StrataAre(rows);
    AscendingStrataIsUnique(sorted, Strata(rows));
  }

  /** Groups the graded tickets by stratum and origin and selects from the strata in order. */
  method MatchedComparisonRows(rows: seq<Row>)
    returns (origins: seq<Origin>, byOrigin: map<Origin, seq<Row>>, sharedStrata: nat, ticketsPerOrigin: nat)
    ensures origins == Origins(rows) && sharedStrata == |SharedStrata(rows, Strata(rows))|
    ensures forall o :: o in origins ==> o in byOrigin && byOrigin[o] == Selected(rows, o)
    ensures forall o :: o in origins ==> |byOrigin[o]| == ticketsPerOrigin
    ensures System in origins && Random in origins
    ensures User in origins <==> exists r :: r in rows && r.eligible && r.graded && r.origin == User
    ensures Unique(multiset(rows)) ==> forall o :: o in origins ==> HoldsLowest(byOrigin[o], rows, o)
  {
    var user := AnyUser(rows);
    origins := if user then [System, Random, User] else [System, Random];
    var groups := GroupRows(rows);
    var strata := SortKeys(groups.Keys);
    KeysAreStrata(groups, rows, strata);
    byOrigin, sharedStrata := SelectStrata(groups, strata, origins, rows);
    SharedStrataAreCounted(rows);
    ticketsPerOrigin := |byOrigin[System]|;
    forall o | o in origins
      ensures |byOrigin[o]| == ticketsPerOrigin
      ensures Unique(multiset(rows)) ==> HoldsLowest(byOrigin[o], rows, o)
    {
      EqualTotals(rows, o, System);
      if Unique(multiset(rows)) {
        SelectedExactly(rows, o);
      }
    }
  }
}
