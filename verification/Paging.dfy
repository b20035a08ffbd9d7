/** Keyset pagination of the draw list: what following page cursors visits. */
module Paging {
  import opened Csv
  import opened Draws
  import opened Cursors
  import Eligibility

  datatype DrawRow = DrawRow(date: string, session: Session, content: Content)

  function SessionRank(s: Session): nat {
    match s
    case Night => 4 case Evening => 3 case Midday => 2 case Morning => 1 case NoSession => 0
  }

  /** Text order. */
  predicate Less(a: string, b: string) {
    b != "" && (a == "" || a[0] < b[0] || (a[0] == b[0] && Less(a[1..], b[1..])))
  }

  /** The first difference decides; a proper prefix comes first. */
  lemma {:induction false} FirstDifferenceDecides(common: string, a: string, b: string)
    ensures a != "" && b != "" && a[0] < b[0] ==> Less(common + a, common + b) && !Less(common + b, common + a)
    ensures b != "" ==> Less(common, common + b) && !Less(common + b, common)
  {
    if common == "" {
      assert common + a == a && common + b == b;
    } else {
      FirstDifferenceDecides(common[1..], a, b);
      assert (common + a)[1..] == common[1..] + a && (common + b)[1..] == common[1..] + b;
    }
  }

  /** Sessions rank in the order in which their sales end; games without sessions come last. */
  lemma SessionsRankThroughTheDay(s: Session, t: Session)
    requires s != NoSession
    ensures SessionRank(NoSession) < SessionRank(s)
    ensures t != NoSession ==>
      (SessionRank(s) < SessionRank(t) <==>
       Eligibility.IntradayCutoff(s).value < Eligibility.IntradayCutoff(t).value)
  {
  }

  lemma {:induction false} LessIsStrict(a: string, b: string)
    requires Less(a, b)
    ensures !Less(b, a) && a != b
  {
    if a != "" && a[0] == b[0] {
      LessIsStrict(a[1..], b[1..]);
    }
  }

  function CursorOf(r: DrawRow): Cursor {
    Cursor(r.date, r.session)
  }

  /** Newest first: a later date, or the same date and a later session. */
  predicate Precedes(c: Cursor, r: DrawRow) {
    Less(r.date, c.date) || (r.date == c.date && SessionRank(r.session) < SessionRank(c.session))
  }

  /** The matching rows in list order; no two share date and session. */
  predicate Listed(table: seq<DrawRow>) {
    table != [] ==>
      && IsDateText(table[0].date) && AllBehind(CursorOf(table[0]), table[1..])
      && Listed(table[1..])
  }

  predicate AllBehind(c: Cursor, rows: seq<DrawRow>) {
    rows != [] ==> Precedes(c, rows[0]) && AllBehind(c, rows[1..])
  }

  lemma {:induction false} BehindAt(c: Cursor, rows: seq<DrawRow>, i: nat)
    requires AllBehind(c, rows) && i < |rows|
    ensures Precedes(c, rows[i])
  {
    if i > 0 {
      BehindAt(c, rows[1..], i - 1);
    }
  }

  lemma {:induction false} ListedAt(table: seq<DrawRow>, i: nat)
    requires Listed(table) && i < |table|
    ensures IsDateText(table[i].date) && AllBehind(CursorOf(table[i]), table[i + 1..])
    ensures forall j :: i < j < |table| ==> Precedes(CursorOf(table[i]), table[j])
  {
    if i > 0 {
      ListedAt(table[1..], i - 1);
      assert table[1..][i..] == table[i + 1..];
      forall j | i < j < |table| ensures Precedes(CursorOf(table[i]), table[j]) {
        assert table[j] == table[1..][j - 1];
      }
    } else {
      forall j | 0 < j < |table| ensures Precedes(CursorOf(table[0]), table[j]) {
        BehindAt(CursorOf(table[0]), table[1..], j - 1);
      }
    }
  }

  /** The rows a query returns before its limit. */
  function After(table: seq<DrawRow>, cursor: Option<Cursor>): seq<DrawRow> {
    if cursor.None? then table
    else if table == [] then []
    else
      (if Precedes(cursor.value, table[0]) then [table[0]] else []) + After(table[1..], cursor)
  }

  datatype Page = Page(rows: seq<DrawRow>, next: Option<Cursor>)

  /** The first `limit` rows found, with a cursor when there are more. */
  function Cut(found: seq<DrawRow>, limit: nat): Page
    requires limit >= 1
  {
    if |found| <= limit then Page(found, None)
    else Page(found[..limit], Some(CursorOf(found[limit - 1])))
  }

  function PageOf(table: seq<DrawRow>, cursor: Option<Cursor>, limit: nat): Page
    requires limit >= 1
  {
    Cut(After(table, cursor), limit)
  }

  lemma {:induction false} AfterAll(table: seq<DrawRow>, c: Cursor)
    requires AllBehind(c, table)
    ensures After(table, Some(c)) == table
  {
    if table != [] {
      AfterAll(table[1..], c);
    }
  }

  lemma {:induction false} AfterSkips(table: seq<DrawRow>, k: nat, c: Cursor)
    requires k <= |table| && forall i :: 0 <= i < k ==> !Precedes(c, table[i])
    ensures After(table, Some(c)) == After(table[k..], Some(c))
  {
    if k > 0 {
      AfterSkips(table[1..], k - 1, c);
      assert table[1..][k - 1..] == table[k..];
    }
  }

  /** The query after a row returns exactly the rows listed behind it. */
  lemma AfterRow(table: seq<DrawRow>, k: nat)
    requires Listed(table) && k < |table|
    ensures After(table, Some(CursorOf(table[k]))) == table[k + 1..]
  {
    var c := CursorOf(table[k]);
    ListedAt(table, k);
    forall i | 0 <= i < k + 1 ensures !Precedes(c, table[i]) {
      ListedAt(table, i);
      if i < k && Less(table[k].date, table[i].date) {
        LessIsStrict(table[k].date, table[i].date);
      }
      if Less(table[i].date, c.date) {
        LessIsStrict(table[i].date, c.date);
      }
    }
    AfterSkips(table, k + 1, c);
    AfterAll(table[k + 1..], c);
  }

  /** The cursor of the page that starts at row `k`. */
  function CursorAt(table: seq<DrawRow>, k: nat): Option<Cursor>
    requires k <= |table|
  {
    if k == 0 then None else Some(CursorOf(table[k - 1]))
  }

  lemma AfterAt(table: seq<DrawRow>, k: nat)
    requires Listed(table) && k <= |table|
    ensures After(table, CursorAt(table, k)) == table[k..]
  {
    if k > 0 {
      AfterRow(table, k - 1);
    }
  }

  lemma CutAt(table: seq<DrawRow>, k: nat, limit: nat)
    requires k <= |table| && limit >= 1
    ensures Cut(table[k..], limit)
            == if |table| - k <= limit then Page(table[k..], None)
               else Page(table[k..k + limit], CursorAt(table, k + limit))
  {
    assert k + limit <= |table| ==> table[k..][..limit] == table[k..k + limit];
  }

  /** The rows seen by following cursors for at most `requests` pages. */
  function Follow(table: seq<DrawRow>, cursor: Option<Cursor>, limit: nat, requests: nat): seq<DrawRow>
    requires limit >= 1
    decreases requests
  {
    if requests == 0 then []
    else
      var page := PageOf(table, cursor, limit);
      page.rows + if page.next.None? then [] else Follow(table, page.next, limit, requests - 1)
  }

  lemma FollowOnce(table: seq<DrawRow>, cursor: Option<Cursor>, limit: nat, requests: nat)
    requires limit >= 1 && requests >= 1
    ensures var page := PageOf(table, cursor, limit);
      Follow(table, cursor, limit, requests)
      == if page.next.None? then page.rows else page.rows + Follow(table, page.next, limit, requests - 1)
  {
  }

  lemma Slices(table: seq<DrawRow>, k: nat, limit: nat)
    requires k + limit <= |table|
    ensures table[k..k + limit] + table[k + limit..] == table[k..]
  {
  }

  /** One page, and whatever the rest of the walk sees. */
  lemma FollowStep(table: seq<DrawRow>, k: nat, limit: nat, requests: nat)
    requires Listed(table) && k <= |table| && limit >= 1 && requests >= 1
    requires |table| - k > limit ==>
      Follow(table, CursorAt(table, k + limit), limit, requests - 1) == table[k + limit..]
    ensures Follow(table, CursorAt(table, k), limit, requests) == table[k..]
  {
    FollowOnce(table, CursorAt(table, k), limit, requests);
    AfterAt(table, k);
    CutAt(table, k, limit);
    if |table| - k > limit {
      Slices(table, k, limit);
    }
  }

  lemma {:induction false} FollowFrom(table: seq<DrawRow>, k: nat, limit: nat, requests: nat)
    requires Listed(table) && k <= |table| && limit >= 1 && requests > |table| - k
    ensures Follow(table, CursorAt(table, k), limit, requests) == table[k..]
    decreases |table| - k
  {
    if |table| - k > limit {
      FollowFrom(table, k + limit, limit, requests - 1);
    }
    FollowStep(table, k, limit, requests);
  }

  /** Following cursors from the first page visits every row exactly once, in list order, for every
      page size. */
  lemma FollowingVisitsAll(table: seq<DrawRow>, limit: nat, requests: nat)
    requires Listed(table) && limit >= 1 && requests > |table|
    ensures Follow(table, None, limit, requests) == table
  {
    FollowFrom(table, 0, limit, requests);
    assert table[0..] == table;
  }

  // ---- the stored table ----

  /** A row of the draw table, in whatever order the table keeps them. */
  datatype StoredRow = StoredRow(game: Game, active: bool, row: DrawRow)

  /** The active draws of a game. */
  function Matching(stored: seq<StoredRow>, game: Game): seq<DrawRow> {
    if stored == [] then []
    else (if stored[0].game == game && stored[0].active then [stored[0].row] else []) + Matching(stored[1..], game)
  }

  /** The key condition of a query that continues after a cursor. */
  function Behind(rows: seq<DrawRow>, c: Cursor): seq<DrawRow> {
    if rows == [] then []
    else (if Precedes(c, rows[0]) then [rows[0]] else []) + Behind(rows[1..], c)
  }

  function Place(r: DrawRow, sorted: seq<DrawRow>): seq<DrawRow> {
    if sorted == [] || Precedes(CursorOf(r), sorted[0]) then [r] + sorted else [sorted[0]] + Place(r, sorted[1..])
  }

  /** Date descending, then session rank descending. */
  function Ordered(rows: seq<DrawRow>): seq<DrawRow> {
    if rows == [] then [] else Place(rows[0], Ordered(rows[1..]))
  }

  /** Filter, then order. */
  function Query(stored: seq<StoredRow>, game: Game, cursor: Option<Cursor>): seq<DrawRow> {
    var rows := Matching(stored, game);
    Ordered(if cursor.None? then rows else Behind(rows, cursor.value))
  }

  /** Dates are well formed, and no two rows share date and session. */
  predicate Proper(rows: seq<DrawRow>) {
    rows != [] ==> IsDateText(rows[0].date) && AllOther(rows[0], rows[1..]) && Proper(rows[1..])
  }

  predicate AllOther(r: DrawRow, rows: seq<DrawRow>) {
    rows != [] ==> CursorOf(r) != CursorOf(rows[0]) && AllOther(r, rows[1..])
  }

  lemma {:induction false} LessIsTotal(a: string, b: string)
    ensures a == b || Less(a, b) || Less(b, a)
  {
    if a != "" && b != "" && a[0] == b[0] {
      LessIsTotal(a[1..], b[1..]);
      assert a == [a[0]] + a[1..] && b == [b[0]] + b[1..];
    }
  }

  lemma {:induction false} LessIsTransitive(a: string, b: string, c: string)
    requires Less(a, b) && Less(b, c)
    ensures Less(a, c)
  {
    if a != "" && a[0] == b[0] && b[0] == c[0] {
      LessIsTransitive(a[1..], b[1..], c[1..]);
    }
  }

  lemma PrecedesIsTotal(r: DrawRow, q: DrawRow)
    requires CursorOf(r) != CursorOf(q)
    ensures Precedes(CursorOf(r), q) || Precedes(CursorOf(q), r)
  {
    LessIsTotal(r.date, q.date);
  }

  lemma PrecedesIsTransitive(p: DrawRow, q: DrawRow, r: DrawRow)
    requires Precedes(CursorOf(p), q) && Precedes(CursorOf(q), r)
    ensures Precedes(CursorOf(p), r)
  {
    if Less(r.date, q.date) && Less(q.date, p.date) {
      LessIsTransitive(r.date, q.date, p.date);
    }
  }

  lemma {:induction false} BehindAll(r: DrawRow, q: DrawRow, rows: seq<DrawRow>)
    requires Precedes(CursorOf(r), q) && AllBehind(CursorOf(q), rows)
    ensures AllBehind(CursorOf(r), rows)
  {
    if rows != [] {
      PrecedesIsTransitive(r, q, rows[0]);
      BehindAll(r, q, rows[1..]);
    }
  }

  lemma {:induction false} PlaceBehind(c: Cursor, r: DrawRow, sorted: seq<DrawRow>)
    requires Precedes(c, r) && AllBehind(c, sorted)
    ensures AllBehind(c, Place(r, sorted))
  {
    var placed := Place(r, sorted);
    if sorted == [] || Precedes(CursorOf(r), sorted[0]) {
      assert placed[1..] == sorted;
    } else {
      PlaceBehind(c, r, sorted[1..]);
      assert placed[1..] == Place(r, sorted[1..]);
    }
  }

  lemma {:induction false} PlaceOther(q: DrawRow, r: DrawRow, sorted: seq<DrawRow>)
    requires CursorOf(q) != CursorOf(r) && AllOther(q, sorted)
    ensures AllOther(q, Place(r, sorted))
  {
    var placed := Place(r, sorted);
    if sorted == [] || Precedes(CursorOf(r), sorted[0]) {
      assert placed[1..] == sorted;
    } else {
      PlaceOther(q, r, sorted[1..]);
      assert placed[1..] == Place(r, sorted[1..]);
    }
  }

  lemma {:induction false} PlaceIsListed(r: DrawRow, sorted: seq<DrawRow>)
    requires Listed(sorted) && AllOther(r, sorted) && IsDateText(r.date)
    ensures Listed(Place(r, sorted))
  {
    var placed := Place(r, sorted);
    if sorted == [] || Precedes(CursorOf(r), sorted[0]) {
      assert placed[1..] == sorted;
      if sorted != [] {
        BehindAll(r, sorted[0], sorted[1..]);
      }
    } else {
      PlaceIsListed(r, sorted[1..]);
      assert placed[1..] == Place(r, sorted[1..]);
      PrecedesIsTotal(r, sorted[0]);
      PlaceBehind(CursorOf(sorted[0]), r, sorted[1..]);
    }
  }

  lemma {:induction false} OrderedOther(q: DrawRow, rows: seq<DrawRow>)
    requires AllOther(q, rows)
    ensures AllOther(q, Ordered(rows))
  {
    if rows != [] {
      OrderedOther(q, rows[1..]);
      PlaceOther(q, rows[0], Ordered(rows[1..]));
    }
  }

  lemma {:induction false} PlaceKeeps(r: DrawRow, sorted: seq<DrawRow>)
    ensures multiset(Place(r, sorted)) == multiset(sorted) + multiset{r}
    ensures |Place(r, sorted)| == |sorted| + 1
  {
    if sorted != [] && !Precedes(CursorOf(r), sorted[0]) {
      PlaceKeeps(r, sorted[1..]);
      assert sorted == [sorted[0]] + sorted[1..];
    }
  }

  /** Ordering the rows lists them all, each once. */
  lemma {:induction false} OrderedIsListed(rows: seq<DrawRow>)
    requires Proper(rows)
    ensures Listed(Ordered(rows)) && multiset(Ordered(rows)) == multiset(rows) && |Ordered(rows)| == |rows|
  {
    if rows != [] {
      OrderedIsListed(rows[1..]);
      OrderedOther(rows[0], rows[1..]);
      PlaceIsListed(rows[0], Ordered(rows[1..]));
      PlaceKeeps(rows[0], Ordered(rows[1..]));
      assert rows == [rows[0]] + rows[1..];
    }
  }

  lemma AfterCons(r: DrawRow, rest: seq<DrawRow>, c: Cursor)
    ensures After([r] + rest, Some(c)) == (if Precedes(c, r) then [r] else []) + After(rest, Some(c))
  {
    assert ([r] + rest)[1..] == rest;
  }

  lemma PlaceFirst(r: DrawRow, sorted: seq<DrawRow>, c: Cursor)
    requires AllBehind(CursorOf(r), sorted)
    ensures Place(r, After(sorted, Some(c))) == [r] + After(sorted, Some(c))
  {
    var found := After(sorted, Some(c));
    if found != [] {
      AfterMember(sorted, Some(c), found[0]);
      var i :| 0 <= i < |sorted| && sorted[i] == found[0];
      BehindAt(CursorOf(r), sorted, i);
    }
  }

  /** Placing a row and then filtering is filtering and then placing it. */
  lemma {:induction false} PlaceThenAfter(r: DrawRow, sorted: seq<DrawRow>, c: Cursor)
    requires Listed(sorted)
    ensures After(Place(r, sorted), Some(c))
            == if Precedes(c, r) then Place(r, After(sorted, Some(c))) else After(sorted, Some(c))
  {
    if sorted == [] || Precedes(CursorOf(r), sorted[0]) {
      AfterCons(r, sorted, c);
      if sorted != [] {
        BehindAll(r, sorted[0], sorted[1..]);
      }
      PlaceFirst(r, sorted, c);
    } else {
      var first, rest := sorted[0], sorted[1..];
      PlaceThenAfter(r, rest, c);
      AfterCons(first, Place(r, rest), c);
      PlaceSecond(r, first, After(rest, Some(c)));
      assert sorted == [first] + rest;
    }
  }

  lemma PlaceSecond(r: DrawRow, first: DrawRow, rest: seq<DrawRow>)
    requires !Precedes(CursorOf(r), first)
    ensures Place(r, [first] + rest) == [first] + Place(r, rest)
    ensures [] + rest == rest && [] + Place(r, rest) == Place(r, rest)
  {
    assert ([first] + rest)[1..] == rest;
  }

  lemma {:induction false} BehindIsProper(rows: seq<DrawRow>, c: Cursor)
    requires Proper(rows)
    ensures Ordered(Behind(rows, c)) == After(Ordered(rows), Some(c))
  {
    if rows != [] {
      BehindIsProper(rows[1..], c);
      OrderedIsListed(rows[1..]);
      PlaceThenAfter(rows[0], Ordered(rows[1..]), c);
      BehindCons(rows, c);
    }
  }

  lemma BehindCons(rows: seq<DrawRow>, c: Cursor)
    requires rows != []
    ensures Ordered(Behind(rows, c))
            == if Precedes(c, rows[0]) then Place(rows[0], Ordered(Behind(rows[1..], c)))
               else Ordered(Behind(rows[1..], c))
  {
    var rest := Behind(rows[1..], c);
    assert ([rows[0]] + rest)[1..] == rest && [] + rest == rest;
  }

  /** Filtering before ordering finds what filtering the ordered table would. */
  lemma QueryIsAfter(stored: seq<StoredRow>, game: Game, cursor: Option<Cursor>)
    requires Proper(Matching(stored, game))
    ensures Query(stored, game, cursor) == After(Ordered(Matching(stored, game)), cursor)
  {
    if cursor.Some? {
      BehindIsProper(Matching(stored, game), cursor.value);
    }
  }

  // ---- cursors as text ----

  /** A cursor as the service hands it out, and none for the first page. */
  function Text(c: Option<Cursor>): Option<string>
    requires c.Some? ==> IsDateText(c.value.date)
  {
    if c.None? then None
    else
      DateTextBytes(c.value);
      Some(EncodeCursor(c.value))
  }

  lemma {:induction false} AfterMember(table: seq<DrawRow>, cursor: Option<Cursor>, r: DrawRow)
    requires r in After(table, cursor)
    ensures r in table
  {
    if cursor.Some? && table != [] && r in After(table[1..], cursor) {
      AfterMember(table[1..], cursor, r);
    }
  }

  lemma NextIsDated(table: seq<DrawRow>, cursor: Option<Cursor>, limit: nat)
    requires Listed(table) && limit >= 1
    ensures var next := PageOf(table, cursor, limit).next; next.Some? ==> IsDateText(next.value.date)
  {
    var found := After(table, cursor);
    if |found| > limit {
      AfterMember(table, cursor, found[limit - 1]);
      var i :| 0 <= i < |table| && table[i] == found[limit - 1];
      ListedAt(table, i);
    }
  }

  lemma QueryIsDated(stored: seq<StoredRow>, game: Game, cursor: Option<Cursor>, limit: nat)
    requires Proper(Matching(stored, game)) && limit >= 1
    ensures Cut(Query(stored, game, cursor), limit) == PageOf(Ordered(Matching(stored, game)), cursor, limit)
    ensures var next := Cut(Query(stored, game, cursor), limit).next; next.Some? ==> IsDateText(next.value.date)
  {
    OrderedIsListed(Matching(stored, game));
    QueryIsAfter(stored, game, cursor);
    NextIsDated(Ordered(Matching(stored, game)), cursor, limit);
  }

  datatype Answer = Answer(rows: seq<DrawRow>, next: Option<string>)

  /** The response to a request; none when its cursor is malformed. An empty cursor counts as none. */
  function Response(stored: seq<StoredRow>, game: Game, cursor: Option<string>, limit: nat): Option<Answer>
    requires Proper(Matching(stored, game)) && limit >= 1
  {
    var given := cursor.Some? && cursor.value != "";
    var from := if given then DecodeCursor(cursor.value) else None;
    if given && from.None? then None
    else
      var page := Cut(Query(stored, game, from), limit);
      QueryIsDated(stored, game, from, limit);
      Some(Answer(page.rows, Text(page.next)))
  }

  /** A request with a cursor that was handed out is answered with the page of the row it was made
      from. */
  lemma ResponseIsPage(stored: seq<StoredRow>, game: Game, cursor: Option<Cursor>, limit: nat)
    requires Proper(Matching(stored, game)) && limit >= 1 && (cursor.Some? ==> IsDateText(cursor.value.date))
    ensures var page := PageOf(Ordered(Matching(stored, game)), cursor, limit);
      && (page.next.Some? ==> IsDateText(page.next.value.date))
      && Response(stored, game, Text(cursor), limit) == Some(Answer(page.rows, Text(page.next)))
  {
    QueryIsDated(stored, game, cursor, limit);
    if cursor.Some? {
      CursorRoundTrip(cursor.value);
    }
  }

  /** The first page, and the page behind every row, holds the next `limit` draws or all that are left,
      and hands out a cursor exactly when more are left. */
  lemma PageIsFull(stored: seq<StoredRow>, game: Game, k: nat, limit: nat)
    requires Proper(Matching(stored, game)) && limit >= 1 && k <= |Ordered(Matching(stored, game))|
    ensures var table := Ordered(Matching(stored, game));
      && (k > 0 ==> IsDateText(table[k - 1].date))
      && var answer := Response(stored, game, Text(CursorAt(table, k)), limit);
      && answer.Some?
      && answer.value.rows == (if k + limit < |table| then table[k..k + limit] else table[k..])
      && (answer.value.next.Some? <==> k + limit < |table|)
  {
    var table := Ordered(Matching(stored, game));
    OrderedIsListed(Matching(stored, game));
    if k > 0 {
      ListedAt(table, k - 1);
    }
    ResponseIsPage(stored, game, CursorAt(table, k), limit);
    AfterAt(table, k);
    CutAt(table, k, limit);
  }

  /** The rows seen by following cursor texts for at most `requests` requests; none when one is
      refused. */
  function FollowText(stored: seq<StoredRow>, game: Game, cursor: Option<string>, limit: nat, requests: nat)
    : Option<seq<DrawRow>>
    requires Proper(Matching(stored, game)) && limit >= 1
    decreases requests
  {
    if requests == 0 then Some([])
    else
      var answer := Response(stored, game, cursor, limit);
      if answer.None? then None
      else if answer.value.next.None? then Some(answer.value.rows)
      else
        var rest := FollowText(stored, game, answer.value.next, limit, requests - 1);
        if rest.None? then None else Some(answer.value.rows + rest.value)
  }

  lemma FollowTextOnce(stored: seq<StoredRow>, game: Game, cursor: Option<string>, limit: nat, requests: nat,
                       answer: Answer, rest: seq<DrawRow>)
    requires Proper(Matching(stored, game)) && limit >= 1 && requests >= 1
    requires Response(stored, game, cursor, limit) == Some(answer)
    requires answer.next.Some? ==> FollowText(stored, game, answer.next, limit, requests - 1) == Some(rest)
    ensures FollowText(stored, game, cursor, limit, requests)
            == Some(if answer.next.None? then answer.rows else answer.rows + rest)
  {
  }

  lemma {:induction false} FollowTextIsFollow(stored: seq<StoredRow>, game: Game, cursor: Option<Cursor>, limit: nat,
                                              requests: nat)
    requires Proper(Matching(stored, game)) && limit >= 1 && (cursor.Some? ==> IsDateText(cursor.value.date))
    ensures FollowText(stored, game, Text(cursor), limit, requests)
            == Some(Follow(Ordered(Matching(stored, game)), cursor, limit, requests))
    decreases requests
  {
    if requests > 0 {
      var table := Ordered(Matching(stored, game));
      var page := PageOf(table, cursor, limit);
      ResponseIsPage(stored, game, cursor, limit);
      if page.next.Some? {
        FollowTextIsFollow(stored, game, page.next, limit, requests - 1);
      }
      FollowTextOnce(stored, game, Text(cursor), limit, requests, Answer(page.rows, Text(page.next)),
                     Follow(table, page.next, limit, requests - 1));
      FollowOnce(table, cursor, limit, requests);
    }
  }

  lemma CountCons<T>(x: T, rest: seq<T>, r: T)
    ensures multiset([x] + rest)[r] == multiset(rest)[r] + if x == r then 1 else 0
  {
  }

  lemma {:induction false} MatchingCount(stored: seq<StoredRow>, game: Game, r: DrawRow)
    ensures multiset(Matching(stored, game))[r] == multiset(stored)[StoredRow(game, true, r)]
  {
    if stored != [] {
      var first, rest := stored[0], stored[1..];
      MatchingCount(rest, game, r);
      CountCons(first, rest, StoredRow(game, true, r));
      assert stored == [first] + rest;
      if first.game == game && first.active {
        CountCons(first.row, Matching(rest, game), r);
      } else {
        assert [] + Matching(rest, game) == Matching(rest, game);
      }
    }
  }

  /** A later date first, and on one date a later session first. */
  predicate NewestFirst(rows: seq<DrawRow>) {
    forall i, j :: 0 <= i < j < |rows| ==>
      || Less(rows[j].date, rows[i].date)
      || (rows[j].date == rows[i].date && SessionRank(rows[j].session) < SessionRank(rows[i].session))
  }

  /** However the table keeps its rows, following cursor texts from the first page visits the active
      draws of the game, every one exactly once, newest first, for every page size. */
  lemma FollowingTextsVisitsAll(stored: seq<StoredRow>, game: Game, limit: nat, requests: nat)
    requires Proper(Matching(stored, game)) && limit >= 1 && requests > |Matching(stored, game)|
    ensures var seen := FollowText(stored, game, None, limit, requests);
      && seen.Some? && NewestFirst(seen.value)
      && forall r :: multiset(seen.value)[r] == multiset(stored)[StoredRow(game, true, r)]
  {
    var table := Ordered(Matching(stored, game));
    OrderedIsListed(Matching(stored, game));
    FollowTextIsFollow(stored, game, None, limit, requests);
    FollowingVisitsAll(table, limit, requests);
    ListedIsNewestFirst(table);
    forall r ensures multiset(table)[r] == multiset(stored)[StoredRow(game, true, r)] {
      MatchingCount(stored, game, r);
    }
  }

  lemma ListedIsNewestFirst(table: seq<DrawRow>)
    requires Listed(table)
    ensures NewestFirst(table)
  {
    forall i, j | 0 <= i < j < |table| ensures Precedes(CursorOf(table[i]), table[j]) {
      ListedAt(table, i);
    }
  }
}
