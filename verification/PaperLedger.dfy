/** The FIFO paper-trading ledger. Sizes are whole 1e-8 units; prices, fees and profit are
    reals, with the ledger's rounding to eight decimals written out. */
module PaperLedger {

  datatype Side = Long | Short

  function Opposite(s: Side): Side {
    if s.Long? then Short else Long
  }

  /** The ledger as written rounds fees to eight decimals; `Exact` is the same ledger without
      that rounding. */
  datatype Rounding = Exact | EightDecimals

  const UNITS := 100_000_000.0
  const HALF_UNIT := 0.5 / UNITS

  function RoundCrypto(x: real): real {
    (x * UNITS + 0.5).Floor as real / UNITS
  }

  function Rounded(r: Rounding, x: real): real {
    if r.Exact? then x else RoundCrypto(x)
  }

  function Slack(r: Rounding): real {
    if r.Exact? then 0.0 else HALF_UNIT
  }

  lemma RoundingIsClose(r: Rounding, x: real)
    ensures -Slack(r) <= Rounded(r, x) - x <= Slack(r)
    ensures x >= 0.0 ==> Rounded(r, x) >= 0.0
  {
    if r.EightDecimals? {
      var n := (x * UNITS + 0.5).Floor;
      assert x * UNITS - 0.5 <= n as real <= x * UNITS + 0.5;
      assert RoundCrypto(x) * UNITS == n as real;
    }
  }

  // ---- input ----

  predicate Within(x: real, y: real, bound: real) {
    -bound <= x - y <= bound
  }

  /** A recorded execution. A buy is on the long side; `trade` orders trade ids. */
  datatype RawFill = RawFill(asset: string, ghostFill: bool, side: Side, price: real, size: real, fees: real,
                             executedAt: int, createdAt: int, trade: nat)

  datatype Fill = Fill(asset: string, side: Side, price: real, size: nat, fees: real)

  predicate ValidRaw(f: RawFill) {
    f.ghostFill && f.price > 0.0 && f.size > 0.0
  }

  function NonNegative(x: real): real {
    if x > 0.0 then x else 0.0
  }

  function Normalized(f: RawFill): Fill
    requires ValidRaw(f)
  {
    Fill(f.asset, f.side, RoundCrypto(f.price), (f.size * UNITS + 0.5).Floor, RoundCrypto(NonNegative(f.fees)))
  }

  function ValidOnes(raw: seq<RawFill>): seq<RawFill> {
    if raw == [] then []
    else
      var front, f := ValidOnes(raw[..|raw| - 1]), raw[|raw| - 1];
      if ValidRaw(f) then front + [f] else front
  }

  /** Execution time, then creation time, then trade id. */
  predicate Earlier(f: RawFill, g: RawFill) {
    || f.executedAt < g.executedAt
    || (f.executedAt == g.executedAt && f.createdAt < g.createdAt)
    || (f.executedAt == g.executedAt && f.createdAt == g.createdAt && f.trade < g.trade)
  }

  /** Stable: equal fills keep their order. */
  function InsertByTime(sorted: seq<RawFill>, f: RawFill): seq<RawFill> {
    if sorted == [] || !Earlier(f, sorted[|sorted| - 1]) then sorted + [f]
    else InsertByTime(sorted[..|sorted| - 1], f) + [sorted[|sorted| - 1]]
  }

  function SortByTime(raw: seq<RawFill>): seq<RawFill> {
    if raw == [] then [] else InsertByTime(SortByTime(raw[..|raw| - 1]), raw[|raw| - 1])
  }

  predicate InOrder(raw: seq<RawFill>) {
    forall i, j :: 0 <= i < j < |raw| ==> !Earlier(raw[j], raw[i])
  }

  lemma {:induction false} InsertionKeeps(sorted: seq<RawFill>, f: RawFill)
    ensures multiset(InsertByTime(sorted, f)) == multiset(sorted) + multiset{f}
  {
    if sorted != [] && Earlier(f, sorted[|sorted| - 1]) {
      InsertionKeeps(sorted[..|sorted| - 1], f);
      assert sorted == sorted[..|sorted| - 1] + [sorted[|sorted| - 1]];
    }
  }

  /** Appending a fill that is not before the last one. */
  lemma AppendInOrder(sorted: seq<RawFill>, f: RawFill)
    requires InOrder(sorted) && forall g :: g in sorted ==> !Earlier(f, g)
    ensures InOrder(sorted + [f])
  {
  }

  lemma LastIsLatest(sorted: seq<RawFill>, f: RawFill, g: RawFill)
    requires InOrder(sorted) && sorted != [] && !Earlier(f, sorted[|sorted| - 1]) && g in sorted
    ensures !Earlier(f, g)
  {
    var i :| 0 <= i < |sorted| && sorted[i] == g;
    assert i == |sorted| - 1 || !Earlier(sorted[|sorted| - 1], sorted[i]);
  }

  lemma {:induction false} InsertionSorts(sorted: seq<RawFill>, f: RawFill)
    requires InOrder(sorted)
    ensures InOrder(InsertByTime(sorted, f))
  {
    if sorted == [] || !Earlier(f, sorted[|sorted| - 1]) {
      forall g | g in sorted ensures !Earlier(f, g) {
        LastIsLatest(sorted, f, g);
      }
      AppendInOrder(sorted, f);
    } else {
      var front, last := sorted[..|sorted| - 1], sorted[|sorted| - 1];
      InsertionSorts(front, f);
      InsertionKeeps(front, f);
      forall g | g in InsertByTime(front, f) ensures !Earlier(last, g) {
        assert g in multiset(InsertByTime(front, f));
      }
      AppendInOrder(InsertByTime(front, f), last);
    }
  }

  lemma {:induction false} SortingOrders(raw: seq<RawFill>)
    ensures InOrder(SortByTime(raw))
  {
    if raw != [] {
      SortingOrders(raw[..|raw| - 1]);
      InsertionSorts(SortByTime(raw[..|raw| - 1]), raw[|raw| - 1]);
    }
  }

  lemma FrontAndLast(raw: seq<RawFill>)
    requires raw != []
    ensures multiset(raw) == multiset(raw[..|raw| - 1]) + multiset{raw[|raw| - 1]}
  {
    assert raw == raw[..|raw| - 1] + [raw[|raw| - 1]];
  }

  lemma {:induction false} SortingKeeps(raw: seq<RawFill>)
    ensures multiset(SortByTime(raw)) == multiset(raw)
  {
    if raw != [] {
      SortingKeeps(raw[..|raw| - 1]);
      InsertionKeeps(SortByTime(raw[..|raw| - 1]), raw[|raw| - 1]);
      FrontAndLast(raw);
    }
  }

  /** Executed no later; created no later where that ties; and with no larger trade id where that
      ties too. */
  predicate NotAfter(f: RawFill, g: RawFill) {
    && f.executedAt <= g.executedAt
    && (f.executedAt == g.executedAt ==>
          f.createdAt <= g.createdAt && (f.createdAt == g.createdAt ==> f.trade <= g.trade))
  }

  /** The fills are processed in time order, and none is lost or added. */
  lemma SortingIsInOrder(raw: seq<RawFill>)
    ensures multiset(SortByTime(raw)) == multiset(raw)
    ensures forall i, j :: 0 <= i < j < |SortByTime(raw)| ==> NotAfter(SortByTime(raw)[i], SortByTime(raw)[j])
  {
    SortingOrders(raw);
    SortingKeeps(raw);
  }

  /** The fills that happened at the same time as `f` and carry the same trade id. */
  function Tied(raw: seq<RawFill>, f: RawFill): seq<RawFill> {
    if raw == [] then []
    else
      var front, g := Tied(raw[..|raw| - 1], f), raw[|raw| - 1];
      if !Earlier(f, g) && !Earlier(g, f) then front + [g] else front
  }

  lemma {:induction false} InsertionIsStable(sorted: seq<RawFill>, g: RawFill, f: RawFill)
    ensures Tied(InsertByTime(sorted, g), f) == Tied(sorted + [g], f)
  {
    if sorted != [] && Earlier(g, sorted[|sorted| - 1]) {
      var front, last := sorted[..|sorted| - 1], sorted[|sorted| - 1];
      InsertionIsStable(front, g, f);
      assert (InsertByTime(front, g) + [last])[..|InsertByTime(front, g)|] == InsertByTime(front, g);
      assert (front + [g])[..|front|] == front && (sorted + [g])[..|sorted|] == sorted;
    }
  }

  /** Fills that cannot be told apart by time keep their order. */
  lemma {:induction false} SortingIsStable(raw: seq<RawFill>, f: RawFill)
    ensures Tied(SortByTime(raw), f) == Tied(raw, f)
  {
    if raw != [] {
      var front, g := raw[..|raw| - 1], raw[|raw| - 1];
      SortingIsStable(front, f);
      InsertionIsStable(SortByTime(front), g, f);
      assert (SortByTime(front) + [g])[..|SortByTime(front)|] == SortByTime(front);
    }
  }

  /** A recorded execution is used exactly when it is a ghost fill with a price and a size. */
  predicate OccursIfValid(f: RawFill, used: seq<RawFill>, raw: seq<RawFill>) {
    multiset(used)[f] == if f.ghostFill && f.price > 0.0 && f.size > 0.0 then multiset(raw)[f] else 0
  }

  lemma {:induction false} ValidOnesCount(raw: seq<RawFill>, f: RawFill)
    ensures OccursIfValid(f, ValidOnes(raw), raw)
  {
    if raw != [] {
      ValidOnesCount(raw[..|raw| - 1], f);
      assert raw == raw[..|raw| - 1] + [raw[|raw| - 1]];
    }
  }

  predicate OnGrid(x: real) {
    (x * UNITS).Floor as real == x * UNITS
  }

  /** `n` is the fill `f` with its price, size and fee moved to the nearest whole 1e-8; a negative
      fee counts as none. */
  predicate NearestFill(f: RawFill, n: Fill) {
    && n.asset == f.asset && n.side == f.side
    && OnGrid(n.price) && Within(n.price, f.price, HALF_UNIT)
    && Within(n.size as real / UNITS, f.size, HALF_UNIT)
    && OnGrid(n.fees) && n.fees >= 0.0 && Within(n.fees, if f.fees > 0.0 then f.fees else 0.0, HALF_UNIT)
  }

  lemma RoundingIsOnGrid(x: real)
    ensures OnGrid(RoundCrypto(x))
  {
    var n := (x * UNITS + 0.5).Floor;
    assert RoundCrypto(x) * UNITS == n as real;
  }

  lemma NormalizedIsNearest(f: RawFill)
    requires ValidRaw(f)
    ensures NearestFill(f, Normalized(f))
  {
    RoundingIsClose(EightDecimals, f.price);
    RoundingIsClose(EightDecimals, f.size);
    RoundingIsClose(EightDecimals, NonNegative(f.fees));
    RoundingIsOnGrid(f.price);
    RoundingIsOnGrid(NonNegative(f.fees));
  }

  lemma {:induction false} NormalizedEach(raw: seq<RawFill>, i: nat)
    requires (forall f :: f in raw ==> ValidRaw(f)) && i < |raw|
    ensures |NormalizedAll(raw)| == |raw| && NearestFill(raw[i], NormalizedAll(raw)[i])
  {
    var front := raw[..|raw| - 1];
    NormalizedIsNearest(raw[|raw| - 1]);
    if front == [] {
      assert NormalizedAll(front) == [];
    } else {
      NormalizedEach(front, if i < |front| then i else 0);
    }
  }

  /** The fills worked on are, in time order, the nearest fills to exactly the valid executions. */
  lemma FillsAreTheValidOnes(raw: seq<RawFill>, i: nat)
    requires i < |Fills(raw)|
    ensures var sorted := SortByTime(ValidOnes(raw));
      && |Fills(raw)| == |sorted| && NearestFill(sorted[i], Fills(raw)[i])
      && forall j :: i < j < |sorted| ==> NotAfter(sorted[i], sorted[j])
    ensures forall f :: OccursIfValid(f, SortByTime(ValidOnes(raw)), raw)
  {
    var valid := ValidOnes(raw);
    SortingIsInOrder(valid);
    forall f ensures OccursIfValid(f, SortByTime(valid), raw) {
      ValidOnesCount(raw, f);
    }
    forall f | f in SortByTime(valid) ensures ValidRaw(f) {
      assert f in multiset(SortByTime(valid)) && OccursIfValid(f, SortByTime(valid), raw);
    }
    assert SortByTime(valid) != [];
    NormalizedEach(SortByTime(valid), 0);
    NormalizedEach(SortByTime(valid), i);
  }

  function NormalizedAll(raw: seq<RawFill>): seq<Fill> {
    if raw == [] then []
    else
      var front, f := NormalizedAll(raw[..|raw| - 1]), raw[|raw| - 1];
      if ValidRaw(f) then front + [Normalized(f)] else front
  }

  /** The valid fills in time order, rounded to units. */
  function Fills(raw: seq<RawFill>): seq<Fill> {
    NormalizedAll(SortByTime(ValidOnes(raw)))
  }

  predicate FeesNonNegative(fills: seq<Fill>) {
    forall f :: f in fills ==> f.fees >= 0.0
  }

  lemma {:induction false} NormalizedHaveFees(raw: seq<RawFill>)
    ensures FeesNonNegative(NormalizedAll(raw))
  {
    if raw != [] {
      NormalizedHaveFees(raw[..|raw| - 1]);
      RoundingIsClose(EightDecimals, NonNegative(raw[|raw| - 1].fees));
    }
  }

  lemma FillsHaveFees(raw: seq<RawFill>)
    ensures FeesNonNegative(Fills(raw))
  {
    NormalizedHaveFees(SortByTime(ValidOnes(raw)));
  }

  // ---- lots ----

  datatype Lot = Lot(side: Side, size: nat, price: real, fee: real)

  datatype Kind = Entry | Increase | Flip | Reduce | Exit

  datatype Event = Event(kind: Kind, side: Side, quantity: nat)

  /** One asset: its open lots, oldest first, and its running totals. */
  datatype Book = Book(lots: seq<Lot>, gross: real, net: real, fees: real, bought: nat, sold: nat, events: seq<Event>)

  const EMPTY := Book([], 0.0, 0.0, 0.0, 0, 0, [])

  function FindLot(lots: seq<Lot>, side: Side): (i: nat)
    ensures i <= |lots|
    ensures i < |lots| ==> lots[i].side == side && lots[i].size > 0
  {
    if lots == [] then 0
    else if lots[0].side == side && lots[0].size > 0 then 0
    else 1 + FindLot(lots[1..], side)
  }

  predicate HasSide(lots: seq<Lot>, side: Side) {
    exists i :: 0 <= i < |lots| && lots[i].side == side
  }

  /** What one unit costs at a price, in currency. */
  function PerUnit(price: real): real {
    price / UNITS
  }

  /** Profit of one unit entered at `entry` on `side` and closed at `exit`, in currency. */
  function Gain(side: Side, entry: real, exit: real): real {
    if side.Long? then PerUnit(exit) - PerUnit(entry) else PerUnit(entry) - PerUnit(exit)
  }

  /** The part of `fee` that falls on `part` units out of `whole`. */
  function Share(fee: real, part: nat, whole: nat): real
    requires whole > 0
  {
    fee * part as real / whole as real
  }

  function Min(a: nat, b: nat): nat {
    if a < b then a else b
  }

  function LeftOver(lot: Lot, close: nat, r: Rounding): Lot
    requires 0 < close <= lot.size
  {
    lot.(size := lot.size - close, fee := Rounded(r, lot.fee - Share(lot.fee, close, lot.size)))
  }

  /** An exhausted lot is removed, a reduced one stays in place. */
  function ReplaceLot(lots: seq<Lot>, i: nat, left: Lot): seq<Lot>
    requires i < |lots|
  {
    if left.size == 0 then lots[..i] + lots[i + 1..] else lots[i := left]
  }

  function CloseFees(lot: Lot, close: nat, f: Fill): real
    requires 0 < close <= lot.size && f.size > 0
  {
    Share(lot.fee, close, lot.size) + Share(f.fees, close, f.size)
  }

  function CloseGross(lot: Lot, close: nat, f: Fill): real {
    Gain(lot.side, lot.price, f.price) * close as real
  }

  function Realize(b: Book, lots: seq<Lot>, gross: real, fees: real, e: Event): Book {
    b.(lots := lots, gross := b.gross + gross, net := b.net + (gross - fees), events := b.events + [e])
  }

  function CloseLot(b: Book, i: nat, close: nat, f: Fill, r: Rounding): Book
    requires i < |b.lots| && 0 < close <= b.lots[i].size && f.size > 0
  {
    var lot := b.lots[i];
    var left := LeftOver(lot, close, r);
    Realize(b, ReplaceLot(b.lots, i, left), CloseGross(lot, close, f), CloseFees(lot, close, f),
            Event(if left.size == 0 then Exit else Reduce, lot.side, close))
  }

  /** The closing loop: oldest opposite lot first, until the fill or the lots run out. */
  function CloseAll(b: Book, remaining: nat, f: Fill, r: Rounding): (Book, nat)
    requires remaining <= f.size
    decreases remaining
  {
    var i := FindLot(b.lots, Opposite(f.side));
    if remaining == 0 || i == |b.lots| then (b, remaining)
    else
      var close := Min(remaining, b.lots[i].size);
      CloseAll(CloseLot(b, i, close, f, r), remaining - close, f, r)
  }

  function OpenLot(b: Book, remaining: nat, f: Fill, r: Rounding, kind: Kind): Book
    requires 0 < remaining <= f.size
  {
    b.(lots := b.lots + [Lot(f.side, remaining, f.price, Rounded(r, Share(f.fees, remaining, f.size)))],
       events := b.events + [Event(kind, f.side, remaining)])
  }

  function OpeningKind(lots: seq<Lot>, f: Fill): Kind {
    if HasSide(lots, Opposite(f.side)) then Flip else if HasSide(lots, f.side) then Increase else Entry
  }

  function Counted(b: Book, f: Fill): Book {
    b.(fees := b.fees + f.fees,
       bought := b.bought + (if f.side.Long? then f.size else 0),
       sold := b.sold + (if f.side.Short? then f.size else 0))
  }

  function ApplyFill(b: Book, f: Fill, r: Rounding): Book {
    var (closed, remaining) := CloseAll(Counted(b, f), f.size, f, r);
    if 0 < remaining <= f.size then OpenLot(closed, remaining, f, r, OpeningKind(b.lots, f)) else closed
  }

  function Lookup(books: map<string, Book>, asset: string): Book {
    if asset in books then books[asset] else EMPTY
  }

  function Ledger(fills: seq<Fill>, r: Rounding): map<string, Book> {
    if fills == [] then map[]
    else
      var books, f := Ledger(fills[..|fills| - 1], r), fills[|fills| - 1];
      books[f.asset := ApplyFill(Lookup(books, f.asset), f, r)]
  }

  method NormalizeFills(raw: seq<RawFill>) returns (fills: seq<Fill>)
    ensures fills == Fills(raw)
  {
    var kept: seq<RawFill> := [];
    for n := 0 to |raw|
      invariant kept == ValidOnes(raw[..n])
    {
      assert raw[..n + 1][..n] == raw[..n];
      if ValidRaw(raw[n]) {
        kept := kept + [raw[n]];
      }
    }
    assert raw[..|raw|] == raw;
    var sorted := SortByTime(kept);
    fills := [];
    for n := 0 to |sorted|
      invariant fills == NormalizedAll(sorted[..n])
    {
      assert sorted[..n + 1][..n] == sorted[..n];
      if ValidRaw(sorted[n]) {
        fills := fills + [Normalized(sorted[n])];
      }
    }
    assert sorted[..|sorted|] == sorted;
  }

  /** One fill: close opposite lots, oldest first, then open a lot with what is left. */
  method ProcessFill(before: Book, f: Fill) returns (book: Book)
    ensures book == ApplyFill(before, f, EightDecimals)
    ensures OneSided(before.lots) ==> Moved(before, f, book)
  {
    var kind := OpeningKind(before.lots, f);
    book := Counted(before, f);
    var remaining := f.size;
    while remaining > 0
      invariant 0 <= remaining <= f.size
      invariant CloseAll(Counted(before, f), f.size, f, EightDecimals) == CloseAll(book, remaining, f, EightDecimals)
    {
      var lotIndex := FindLot(book.lots, Opposite(f.side));
      if lotIndex == |book.lots| {
        break;
      }
      var closeSize := Min(remaining, book.lots[lotIndex].size);
      book := CloseLot(book, lotIndex, closeSize, f, EightDecimals);
      remaining := remaining - closeSize;
    }
    if remaining > 0 {
      book := OpenLot(book, remaining, f, EightDecimals, kind);
    }
    if OneSided(before.lots) {
      LastEventDescribesMove(before, f, EightDecimals);
    }
  }

  method BuildPaperLedger(raw: seq<RawFill>) returns (books: map<string, Book>)
    ensures books == Ledger(Fills(raw), EightDecimals)
    ensures forall asset :: var book := Lookup(books, asset);
      MatchesUnits(book, TradeFills(Fills(raw), asset), Times(|book.events|, HALF_UNIT))
  {
    var fills := NormalizeFills(raw);
    books := map[];
    for n := 0 to |fills|
      invariant books == Ledger(fills[..n], EightDecimals)
    {
      assert fills[..n + 1][..n] == fills[..n];
      var f := fills[n];
      var book := ProcessFill(Lookup(books, f.asset), f);
      books := books[f.asset := book];
    }
    assert fills[..|fills|] == fills;
    forall asset
      ensures var book := Lookup(books, asset);
        MatchesUnits(book, TradeFills(fills, asset), Times(|book.events|, HALF_UNIT))
    {
      LotsAreTheFifoRemainder(fills, EightDecimals, asset);
    }
  }

  // ---- the reference: one unit at a time ----

  /** One traded unit with the part of the fill's fee that falls on it. */
  datatype Unit = Unit(side: Side, price: real, fee: real)

  /** A queue of single open units, oldest first, and the profit realized so far, before and
      after fees. */
  datatype UnitBook = UnitBook(queue: seq<Unit>, gross: real, net: real)

  /** What closing unit `v` with unit `u` earns after the fees of both. */
  function NetGain(v: Unit, u: Unit): real {
    Gain(v.side, v.price, u.price) - v.fee - u.fee
  }

  /** A unit closes the oldest open unit if that is on the other side, or joins the queue. */
  function TradeUnit(b: UnitBook, u: Unit): UnitBook {
    if b.queue != [] && b.queue[0].side != u.side then
      var v := b.queue[0];
      UnitBook(b.queue[1..], b.gross + Gain(v.side, v.price, u.price), b.net + NetGain(v, u))
    else UnitBook(b.queue + [u], b.gross, b.net)
  }

  function TradeUnits(b: UnitBook, u: Unit, n: nat): UnitBook
    decreases n
  {
    if n == 0 then b else TradeUnits(TradeUnit(b, u), u, n - 1)
  }

  /** `x` added up `n` times. */
  function Times(n: nat, x: real): real {
    if n == 0 then 0.0 else x + Times(n - 1, x)
  }

  lemma {:induction false} TimesIsProduct(n: nat, x: real)
    ensures Times(n, x) == x * n as real
  {
    if n > 0 {
      TimesIsProduct(n - 1, x);
    }
  }

  lemma {:induction false} TimesAdds(m: nat, n: nat, x: real)
    ensures Times(m + n, x) == Times(m, x) + Times(n, x)
  {
    if m > 0 {
      TimesAdds(m - 1, n, x);
    }
  }

  /** A fee spread evenly over `n` units. */
  function FeeEach(fee: real, n: nat): real {
    if n == 0 then 0.0 else fee / n as real
  }

  function UnitOf(f: Fill): Unit {
    Unit(f.side, f.price, FeeEach(f.fees, f.size))
  }

  function TradeFills(fills: seq<Fill>, asset: string): UnitBook {
    if fills == [] then UnitBook([], 0.0, 0.0)
    else
      var b, f := TradeFills(fills[..|fills| - 1], asset), fills[|fills| - 1];
      if f.asset == asset then TradeUnits(b, UnitOf(f), f.size) else b
  }

  function Copies(u: Unit, n: nat): seq<Unit> {
    seq(n, _ => u)
  }

  function UnitIn(lot: Lot): Unit {
    Unit(lot.side, lot.price, FeeEach(lot.fee, lot.size))
  }

  function Expand(lots: seq<Lot>): seq<Unit> {
    if lots == [] then [] else Copies(UnitIn(lots[0]), lots[0].size) + Expand(lots[1..])
  }

  function Units(b: Book): UnitBook {
    UnitBook(Expand(b.lots), b.gross, b.net)
  }

  predicate OneSided(lots: seq<Lot>) {
    forall i :: 0 <= i < |lots| ==> lots[i].size > 0 && lots[i].side == lots[0].side
  }

  lemma {:induction false} TradeInTwoParts(b: UnitBook, u: Unit, m: nat, n: nat)
    ensures TradeUnits(b, u, m + n) == TradeUnits(TradeUnits(b, u, m), u, n)
    decreases m
  {
    if m > 0 {
      TradeInTwoParts(TradeUnit(b, u), u, m - 1, n);
    }
  }

  lemma {:induction false} CloseUnits(v: Unit, n: nat, rest: seq<Unit>, gross: real, net: real, u: Unit, k: nat)
    requires v.side != u.side && k <= n
    ensures TradeUnits(UnitBook(Copies(v, n) + rest, gross, net), u, k)
      == UnitBook(Copies(v, n - k) + rest, gross + Times(k, Gain(v.side, v.price, u.price)),
                  net + Times(k, NetGain(v, u)))
    decreases k
  {
    if k > 0 {
      CloseOneUnit(v, n, rest, gross, net, u);
      CloseUnits(v, n - 1, rest, gross + Gain(v.side, v.price, u.price), net + NetGain(v, u), u, k - 1);
    }
  }

  lemma CloseOneUnit(v: Unit, n: nat, rest: seq<Unit>, gross: real, net: real, u: Unit)
    requires v.side != u.side && n > 0
    ensures TradeUnit(UnitBook(Copies(v, n) + rest, gross, net), u)
            == UnitBook(Copies(v, n - 1) + rest, gross + Gain(v.side, v.price, u.price), net + NetGain(v, u))
  {
    var q := Copies(v, n) + rest;
    assert q[0] == v && q[1..] == Copies(v, n - 1) + rest;
  }

  lemma {:induction false} OpenUnits(queue: seq<Unit>, gross: real, net: real, u: Unit, k: nat)
    requires forall i :: 0 <= i < |queue| ==> queue[i].side == u.side
    ensures TradeUnits(UnitBook(queue, gross, net), u, k) == UnitBook(queue + Copies(u, k), gross, net)
    decreases k
  {
    if k == 0 {
      assert queue + Copies(u, 0) == queue;
    } else {
      OpenUnits(queue + [u], gross, net, u, k - 1);
      assert queue + [u] + Copies(u, k - 1) == queue + Copies(u, k);
    }
  }

  lemma {:induction false} ExpandOneSided(lots: seq<Lot>, side: Side)
    requires forall i :: 0 <= i < |lots| ==> lots[i].side == side
    ensures forall i :: 0 <= i < |Expand(lots)| ==> Expand(lots)[i].side == side
  {
    if lots != [] {
      ExpandOneSided(lots[1..], side);
    }
  }

  lemma {:induction false} ExpandAppend(lots: seq<Lot>, lot: Lot)
    ensures Expand(lots + [lot]) == Expand(lots) + Copies(UnitIn(lot), lot.size)
  {
    if lots == [] {
      assert [lot][1..] == [];
      assert lots + [lot] == [lot];
    } else {
      assert (lots + [lot])[1..] == lots[1..] + [lot];
      ExpandAppend(lots[1..], lot);
    }
  }

  lemma {:induction false} FindInOneSided(lots: seq<Lot>, side: Side)
    requires OneSided(lots)
    ensures FindLot(lots, side) == if lots != [] && lots[0].side == side then 0 else |lots|
  {
    if lots != [] && lots[0].side != side {
      assert |lots| > 1 ==> lots[1].side != side;
      FindInOneSided(lots[1..], side);
    }
  }

  lemma ReplaceFirst(lots: seq<Lot>, left: Lot, v: Unit)
    requires lots != [] && OneSided(lots) && left.side == lots[0].side
    requires left.size > 0 ==> UnitIn(left) == v
    ensures Expand(ReplaceLot(lots, 0, left)) == Copies(v, left.size) + Expand(lots[1..])
    ensures OneSided(ReplaceLot(lots, 0, left))
  {
    var after := ReplaceLot(lots, 0, left);
    if left.size == 0 {
      assert after == lots[1..];
      assert Copies(v, 0) == [];
    } else {
      assert after[1..] == lots[1..];
    }
  }

  lemma ShareIsEach(fee: real, part: nat, whole: nat)
    requires whole > 0
    ensures Share(fee, part, whole) == FeeEach(fee, whole) * part as real
  {
    var w, p := whole as real, part as real;
    assert fee * p / w * w == fee * p && fee / w * w == fee;
    SameQuotient(fee * p / w, fee / w * p, w);
  }

  lemma SameQuotient(x: real, y: real, w: real)
    requires w > 0.0 && x * w == y * w
    ensures x == y
  {
  }

  /** A share of the units keeps the fee of each unit. */
  lemma ShareKeepsEach(fee: real, part: nat, whole: nat)
    requires 0 < part <= whole
    ensures FeeEach(Share(fee, part, whole), part) == FeeEach(fee, whole)
  {
    ShareIsEach(fee, part, whole);
    var p, each := part as real, FeeEach(fee, whole);
    assert each * p / p * p == each * p;
    SameQuotient(each * p / p, each, p);
  }

  /** What is left of a lot keeps the fee of each unit. */
  lemma RestKeepsEach(fee: real, close: nat, size: nat)
    requires 0 < close < size
    ensures FeeEach(fee - Share(fee, close, size), size - close) == FeeEach(fee, size)
  {
    ShareFacts(fee, close, size - close, size);
    ShareKeepsEach(fee, size - close, size);
  }

  lemma NetOfClose(gain: real, v: real, u: real, k: nat)
    ensures Times(k, gain) == gain * k as real
    ensures Times(k, gain - v - u) == gain * k as real - (v * k as real + u * k as real)
  {
    TimesIsProduct(k, gain);
    TimesIsProduct(k, gain - v - u);
  }

  lemma CloseLotProfit(b: Book, close: nat, f: Fill)
    requires b.lots != [] && 0 < close <= b.lots[0].size && f.size > 0
    ensures var c, v, u := CloseLot(b, 0, close, f, Exact), UnitIn(b.lots[0]), UnitOf(f);
      && c.gross == b.gross + Times(close, Gain(v.side, v.price, u.price))
      && c.net == b.net + Times(close, NetGain(v, u))
  {
    var lot := b.lots[0];
    ShareIsEach(lot.fee, close, lot.size);
    ShareIsEach(f.fees, close, f.size);
    NetOfClose(Gain(lot.side, lot.price, f.price), UnitIn(lot).fee, UnitOf(f).fee, close);
  }

  lemma ClosedAsUnits(b: UnitBook, v: Unit, n: nat, rest: seq<Unit>, u: Unit, k: nat, c: UnitBook)
    requires v.side != u.side && k <= n && b.queue == Copies(v, n) + rest && c.queue == Copies(v, n - k) + rest
    requires c.gross == b.gross + Times(k, Gain(v.side, v.price, u.price))
    requires c.net == b.net + Times(k, NetGain(v, u))
    ensures c == TradeUnits(b, u, k)
  {
    CloseUnits(v, n, rest, b.gross, b.net, u, k);
  }

  lemma CloseLotQueue(b: Book, close: nat, f: Fill)
    requires b.lots != [] && OneSided(b.lots) && 0 < close <= b.lots[0].size && f.size > 0
    ensures OneSided(CloseLot(b, 0, close, f, Exact).lots)
    ensures Expand(CloseLot(b, 0, close, f, Exact).lots)
      == Copies(UnitIn(b.lots[0]), b.lots[0].size - close) + Expand(b.lots[1..])
  {
    var lot := b.lots[0];
    if close < lot.size {
      RestKeepsEach(lot.fee, close, lot.size);
    }
    ReplaceFirst(b.lots, LeftOver(lot, close, Exact), UnitIn(lot));
  }

  /** Closing part of the oldest lot is closing that many of the oldest units. */
  lemma CloseLotIsUnits(b: Book, close: nat, f: Fill)
    requires b.lots != [] && OneSided(b.lots) && b.lots[0].side == Opposite(f.side)
    requires 0 < close <= b.lots[0].size && f.size > 0
    ensures Units(CloseLot(b, 0, close, f, Exact)) == TradeUnits(Units(b), UnitOf(f), close)
    ensures OneSided(CloseLot(b, 0, close, f, Exact).lots)
  {
    CloseLotQueue(b, close, f);
    CloseLotProfit(b, close, f);
    var c := CloseLot(b, 0, close, f, Exact);
    ClosedAsUnits(Units(b), UnitIn(b.lots[0]), b.lots[0].size, Expand(b.lots[1..]), UnitOf(f), close, Units(c));
  }

  /** What is known of the book and the remainder after the closing loop. */
  predicate Closed(b: Book, remaining: nat, f: Fill, c: Book, left: nat) {
    && left <= remaining && OneSided(c.lots)
    && (left > 0 && c.lots != [] ==> c.lots[0].side == f.side)
    && TradeUnits(Units(b), UnitOf(f), remaining) == TradeUnits(Units(c), UnitOf(f), left)
  }

  lemma ClosedStep(b: Book, remaining: nat, f: Fill, next: Book, close: nat, c: Book, left: nat)
    requires close <= remaining && Closed(next, remaining - close, f, c, left)
    requires Units(next) == TradeUnits(Units(b), UnitOf(f), close)
    ensures Closed(b, remaining, f, c, left)
  {
    TradeInTwoParts(Units(b), UnitOf(f), close, remaining - close);
  }

  lemma {:induction false} CloseAllIsUnits(b: Book, remaining: nat, f: Fill)
    requires OneSided(b.lots) && remaining <= f.size
    ensures Closed(b, remaining, f, CloseAll(b, remaining, f, Exact).0, CloseAll(b, remaining, f, Exact).1)
    decreases remaining
  {
    FindInOneSided(b.lots, Opposite(f.side));
    var i := FindLot(b.lots, Opposite(f.side));
    if remaining > 0 && i < |b.lots| {
      var close := Min(remaining, b.lots[i].size);
      CloseLotIsUnits(b, close, f);
      var next := CloseLot(b, i, close, f, Exact);
      CloseAllIsUnits(next, remaining - close, f);
      var (c, left) := CloseAll(next, remaining - close, f, Exact);
      ClosedStep(b, remaining, f, next, close, c, left);
    }
  }

  /** Without rounding a fill does to the lots what its units do to the queue. */
  lemma ApplyFillIsUnits(b: Book, f: Fill)
    requires OneSided(b.lots)
    ensures OneSided(ApplyFill(b, f, Exact).lots)
    ensures Units(ApplyFill(b, f, Exact)) == TradeUnits(Units(b), UnitOf(f), f.size)
  {
    CloseAllIsUnits(Counted(b, f), f.size, f);
    var (c, left) := CloseAll(Counted(b, f), f.size, f, Exact);
    if left > 0 {
      OpenLotIsUnits(c, left, f, OpeningKind(b.lots, f));
    }
  }

  /** Opening a lot is queueing that many units. */
  lemma OpenLotIsUnits(c: Book, left: nat, f: Fill, kind: Kind)
    requires OneSided(c.lots) && (c.lots != [] ==> c.lots[0].side == f.side) && 0 < left <= f.size
    ensures OneSided(OpenLot(c, left, f, Exact, kind).lots)
    ensures Units(OpenLot(c, left, f, Exact, kind)) == TradeUnits(Units(c), UnitOf(f), left)
  {
    ExpandOneSided(c.lots, f.side);
    OpenUnits(Expand(c.lots), c.gross, c.net, UnitOf(f), left);
    ShareKeepsEach(f.fees, left, f.size);
    ExpandAppend(c.lots, Lot(f.side, left, f.price, Share(f.fees, left, f.size)));
  }

  /** Without rounding, for every fill sequence and every asset, the open lots are, unit for unit
      and fee for fee, the queue that unit-at-a-time FIFO leaves, and the realized profit is that of
      the matched units, before and after the fees of both sides. */
  lemma {:induction false} ExactLotsAreTheFifoRemainder(fills: seq<Fill>, asset: string)
    ensures OneSided(Lookup(Ledger(fills, Exact), asset).lots)
    ensures Units(Lookup(Ledger(fills, Exact), asset)) == TradeFills(fills, asset)
  {
    if fills != [] {
      var before, f := fills[..|fills| - 1], fills[|fills| - 1];
      ExactLotsAreTheFifoRemainder(before, asset);
      if f.asset == asset {
        ApplyFillIsUnits(Lookup(Ledger(before, Exact), asset), f);
      }
    }
  }

  // ---- rounding moves fees only ----

  function Abs(x: real): real {
    if x < 0.0 then -x else x
  }

  /** The same lots, but for their fees. */
  predicate SameLots(x: seq<Lot>, y: seq<Lot>) {
    |x| == |y| && forall i :: 0 <= i < |x| ==> x[i] == y[i].(fee := x[i].fee)
  }

  /** How far the fees of two lists of lots are apart. */
  function FeeDistance(x: seq<Lot>, y: seq<Lot>): real {
    if x == [] || y == [] then 0.0 else Abs(x[0].fee - y[0].fee) + FeeDistance(x[1..], y[1..])
  }

  /** Books that differ in fees only, by at most `slack` per event. */
  predicate Near(b: Book, e: Book, slack: real) {
    && SameLots(b.lots, e.lots) && OneSided(e.lots)
    && b.(lots := e.lots, net := e.net) == e
    && Abs(b.net - e.net) + FeeDistance(b.lots, e.lots) <= Times(|b.events|, slack)
  }

  /** A difference of fees splits as a fee does. */
  lemma ShareSplitsDistance(p: real, q: real, part: nat, whole: nat)
    requires 0 < part <= whole
    ensures Share(p, part, whole) - Share(q, part, whole) == Share(p - q, part, whole)
    ensures Abs(Share(p - q, part, whole)) + Abs(p - q - Share(p - q, part, whole)) == Abs(p - q)
  {
    ShareIsEach(p, part, whole);
    ShareIsEach(q, part, whole);
    ShareIsEach(p - q, part, whole);
    ShareIsLinear(p, q, part as real, whole as real);
    ShareIsBetween(p - q, part, whole);
  }

  lemma ShareIsLinear(p: real, q: real, k: real, w: real)
    requires w > 0.0
    ensures p / w * k - q / w * k == (p - q) / w * k
  {
    assert p / w - q / w == (p - q) / w;
    assert (p / w - q / w) * k == p / w * k - q / w * k;
  }

  lemma ShareIsBetween(d: real, part: nat, whole: nat)
    requires 0 < part <= whole
    ensures if d >= 0.0 then 0.0 <= Share(d, part, whole) <= d else d <= Share(d, part, whole) <= 0.0
  {
    ShareIsPart(Abs(d), part, whole);
    ShareIsEach(d, part, whole);
    ShareIsEach(-d, part, whole);
    assert (-d) / whole as real == -(d / whole as real);
  }

  lemma CloseLotNear(b: Book, e: Book, close: nat, f: Fill, r: Rounding)
    requires Near(b, e, Slack(r)) && b.lots != [] && 0 < close <= b.lots[0].size && f.size > 0
    ensures Near(CloseLot(b, 0, close, f, r), CloseLot(e, 0, close, f, Exact), Slack(r))
  {
    var p, q := b.lots[0], e.lots[0];
    CloseLotNetNear(b, e, close, f, r);
    RestNear(p, q, close, r);
    ReplaceFirstNear(b.lots, e.lots, LeftOver(p, close, r), LeftOver(q, close, Exact));
  }

  /** Closing differs in the net profit only, by the share of the difference of the lots' fees. */
  lemma CloseLotNetNear(b: Book, e: Book, close: nat, f: Fill, r: Rounding)
    requires b.lots != [] && e.lots != [] && b.lots[0] == e.lots[0].(fee := b.lots[0].fee)
    requires b.(lots := e.lots, net := e.net) == e && 0 < close <= b.lots[0].size && f.size > 0
    ensures var c, d := CloseLot(b, 0, close, f, r), CloseLot(e, 0, close, f, Exact);
      && c.(lots := d.lots, net := d.net) == d
      && c.net - d.net == b.net - e.net - Share(b.lots[0].fee - e.lots[0].fee, close, b.lots[0].size)
  {
    assert CloseGross(b.lots[0], close, f) == CloseGross(e.lots[0], close, f);
    ShareSplitsDistance(b.lots[0].fee, e.lots[0].fee, close, b.lots[0].size);
  }

  /** The rest of the difference stays with the lot, off by one rounding. */
  lemma RestNear(p: Lot, q: Lot, close: nat, r: Rounding)
    requires p == q.(fee := p.fee) && 0 < close <= p.size
    ensures var share := Share(p.fee - q.fee, close, p.size);
      && Abs(share) + Abs(LeftOver(p, close, r).fee - LeftOver(q, close, Exact).fee) <= Abs(p.fee - q.fee) + Slack(r)
      && Abs(share) <= Abs(p.fee - q.fee)
  {
    ShareSplitsDistance(p.fee, q.fee, close, p.size);
    RoundingIsClose(r, p.fee - Share(p.fee, close, p.size));
  }

  lemma ReplaceFirstNear(x: seq<Lot>, y: seq<Lot>, left: Lot, left': Lot)
    requires SameLots(x, y) && OneSided(y) && x != [] && left == left'.(fee := left.fee) && left.side == x[0].side
    ensures SameLots(ReplaceLot(x, 0, left), ReplaceLot(y, 0, left')) && OneSided(ReplaceLot(y, 0, left'))
    ensures FeeDistance(ReplaceLot(x, 0, left), ReplaceLot(y, 0, left'))
      == FeeDistance(x[1..], y[1..]) + (if left.size == 0 then 0.0 else Abs(left.fee - left'.fee))
  {
    var a, b := ReplaceLot(x, 0, left), ReplaceLot(y, 0, left');
    assert left.size == 0 ==> a == x[1..] && b == y[1..];
    assert left.size > 0 ==> a[1..] == x[1..] && b[1..] == y[1..];
  }

  lemma {:induction false} DistanceAppend(x: seq<Lot>, y: seq<Lot>, p: Lot, q: Lot)
    requires |x| == |y|
    ensures FeeDistance(x + [p], y + [q]) == FeeDistance(x, y) + Abs(p.fee - q.fee)
  {
    if x == [] {
      assert x + [p] == [p] && y + [q] == [q] && [p][1..] == [] && [q][1..] == [];
    } else {
      assert (x + [p])[1..] == x[1..] + [p] && (y + [q])[1..] == y[1..] + [q];
      DistanceAppend(x[1..], y[1..], p, q);
    }
  }

  lemma OpenLotNear(b: Book, e: Book, left: nat, f: Fill, r: Rounding, kind: Kind)
    requires Near(b, e, Slack(r)) && 0 < left <= f.size && (e.lots != [] ==> e.lots[0].side == f.side)
    ensures Near(OpenLot(b, left, f, r, kind), OpenLot(e, left, f, Exact, kind), Slack(r))
  {
    var fee := Share(f.fees, left, f.size);
    RoundingIsClose(r, fee);
    DistanceAppend(b.lots, e.lots, Lot(f.side, left, f.price, Rounded(r, fee)), Lot(f.side, left, f.price, fee));
  }

  predicate NearResult(x: (Book, nat), y: (Book, nat), slack: real) {
    Near(x.0, y.0, slack) && x.1 == y.1
  }

  lemma NearFind(b: Book, e: Book, side: Side, slack: real)
    requires Near(b, e, slack)
    ensures FindLot(b.lots, side) == FindLot(e.lots, side)
    ensures FindLot(b.lots, side) < |b.lots| ==> FindLot(b.lots, side) == 0 && b.lots[0].size == e.lots[0].size
  {
    FindInOneSided(b.lots, side);
    FindInOneSided(e.lots, side);
  }

  lemma {:induction false} CloseAllNear(b: Book, e: Book, remaining: nat, f: Fill, r: Rounding)
    requires Near(b, e, Slack(r)) && remaining <= f.size
    ensures NearResult(CloseAll(b, remaining, f, r), CloseAll(e, remaining, f, Exact), Slack(r))
    decreases remaining
  {
    NearFind(b, e, Opposite(f.side), Slack(r));
    if remaining > 0 && FindLot(b.lots, Opposite(f.side)) < |b.lots| {
      var close := Min(remaining, b.lots[0].size);
      CloseLotNear(b, e, close, f, r);
      CloseAllNear(CloseLot(b, 0, close, f, r), CloseLot(e, 0, close, f, Exact), remaining - close, f, r);
    }
  }

  lemma SameKind(x: seq<Lot>, y: seq<Lot>, f: Fill)
    requires SameLots(x, y) && OneSided(y)
    ensures OpeningKind(x, f) == OpeningKind(y, f)
  {
    KindFromSide(x, f);
    KindFromSide(y, f);
  }

  lemma ApplyFillNear(b: Book, e: Book, f: Fill, r: Rounding)
    requires Near(b, e, Slack(r))
    ensures Near(ApplyFill(b, f, r), ApplyFill(e, f, Exact), Slack(r))
  {
    SameKind(b.lots, e.lots, f);
    CloseAllNear(Counted(b, f), Counted(e, f), f.size, f, r);
    CloseAllIsUnits(Counted(e, f), f.size, f);
    var (c, left) := CloseAll(Counted(b, f), f.size, f, r);
    if left > 0 {
      OpenLotNear(c, CloseAll(Counted(e, f), f.size, f, Exact).0, left, f, r, OpeningKind(b.lots, f));
    }
  }

  lemma {:induction false} LedgerNear(fills: seq<Fill>, r: Rounding, asset: string)
    ensures Near(Lookup(Ledger(fills, r), asset), Lookup(Ledger(fills, Exact), asset), Slack(r))
  {
    if fills != [] {
      var before, f := fills[..|fills| - 1], fills[|fills| - 1];
      LedgerNear(before, r, asset);
      if f.asset == asset {
        ApplyFillNear(Lookup(Ledger(before, r), asset), Lookup(Ledger(before, Exact), asset), f, r);
      }
    }
  }

  /** The same units, but for their fees. */
  predicate SameUnits(p: seq<Unit>, q: seq<Unit>) {
    |p| == |q| && forall i :: 0 <= i < |p| ==> p[i].side == q[i].side && p[i].price == q[i].price
  }

  lemma {:induction false} SameLotsExpand(x: seq<Lot>, y: seq<Lot>)
    requires SameLots(x, y)
    ensures SameUnits(Expand(x), Expand(y))
  {
    if x != [] {
      SameLotsExpand(x[1..], y[1..]);
    }
  }

  function QueueFees(q: seq<Unit>): real {
    if q == [] then 0.0 else q[0].fee + QueueFees(q[1..])
  }

  lemma {:induction false} CopiesFees(u: Unit, n: nat, rest: seq<Unit>)
    ensures QueueFees(Copies(u, n) + rest) == Times(n, u.fee) + QueueFees(rest)
  {
    if n == 0 {
      assert Copies(u, 0) + rest == rest;
    } else {
      assert (Copies(u, n) + rest)[1..] == Copies(u, n - 1) + rest;
      CopiesFees(u, n - 1, rest);
    }
  }

  lemma {:induction false} LotsHoldUnitFees(lots: seq<Lot>)
    requires OneSided(lots)
    ensures QueueFees(Expand(lots)) == FeesHeld(lots)
  {
    if lots != [] {
      var lot := lots[0];
      assert |lots| > 1 ==> lots[1].side == lot.side;
      LotsHoldUnitFees(lots[1..]);
      CopiesFees(UnitIn(lot), lot.size, Expand(lots[1..]));
      TimesIsProduct(lot.size, UnitIn(lot).fee);
      assert lot.fee / lot.size as real * lot.size as real == lot.fee;
    }
  }

  lemma {:induction false} FeesHeldApart(x: seq<Lot>, y: seq<Lot>)
    requires |x| == |y|
    ensures Abs(FeesHeld(x) - FeesHeld(y)) <= FeeDistance(x, y)
  {
    if x != [] {
      FeesHeldApart(x[1..], y[1..]);
    }
  }

  /** One-sided lots that are, unit for unit, the queue; the gross profit of the matched units; and,
      within `bound`, their net profit and the fees of the queued units. */
  predicate MatchesUnits(b: Book, units: UnitBook, bound: real) {
    && OneSided(b.lots)
    && SameUnits(Expand(b.lots), units.queue)
    && b.gross == units.gross
    && Abs(b.net - units.net) + Abs(FeesHeld(b.lots) - QueueFees(units.queue)) <= bound
  }

  lemma NearIsUnits(b: Book, e: Book, units: UnitBook, slack: real)
    requires Near(b, e, slack) && Units(e) == units
    ensures MatchesUnits(b, units, Times(|b.events|, slack))
  {
    SameLotsExpand(b.lots, e.lots);
    LotsHoldUnitFees(e.lots);
    FeesHeldApart(b.lots, e.lots);
  }

  /** For every fill sequence and every asset, the open lots are all on one side and are, unit
      for unit, the queue that unit-at-a-time FIFO leaves, and the realized gross profit is the
      profit of the matched units. The realized net profit is that of the matched units after the
      entry and exit fees of each, and the fees held are those of the queued units: together they
      are off by at most half a unit per ledger event, and by nothing without rounding. */
  lemma LotsAreTheFifoRemainder(fills: seq<Fill>, r: Rounding, asset: string)
    ensures var book := Lookup(Ledger(fills, r), asset);
      MatchesUnits(book, TradeFills(fills, asset), Times(|book.events|, Slack(r)))
  {
    LedgerNear(fills, r, asset);
    ExactLotsAreTheFifoRemainder(fills, asset);
    var book, exact := Lookup(Ledger(fills, r), asset), Lookup(Ledger(fills, Exact), asset);
    NearIsUnits(book, exact, TradeFills(fills, asset), Slack(r));
  }

  // ---- position and profit ----

  function SignedSize(s: Side, n: nat): int {
    if s.Long? then n as int else 0 - n
  }

  function SignedValue(s: Side, x: real): real {
    if s.Long? then x else -x
  }

  function QueueCount(q: seq<Unit>): int {
    if q == [] then 0 else SignedSize(q[0].side, 1) + QueueCount(q[1..])
  }

  function QueueValue(q: seq<Unit>): real {
    if q == [] then 0.0 else SignedValue(q[0].side, PerUnit(q[0].price)) + QueueValue(q[1..])
  }

  lemma {:induction false} QueueAppend(q: seq<Unit>, u: Unit)
    ensures QueueCount(q + [u]) == QueueCount(q) + SignedSize(u.side, 1)
    ensures QueueValue(q + [u]) == QueueValue(q) + SignedValue(u.side, PerUnit(u.price))
  {
    if q == [] {
      assert q + [u] == [u] && [u][1..] == [];
    } else {
      assert (q + [u])[1..] == q[1..] + [u];
      QueueAppend(q[1..], u);
    }
  }

  /** Each traded unit moves the signed count by its sign and the profit, net of the signed
      value still queued, by minus its signed price. */
  lemma {:induction false} UnitsConserve(b: UnitBook, u: Unit, n: nat)
    ensures var c := TradeUnits(b, u, n);
      && QueueCount(c.queue) == QueueCount(b.queue) + SignedSize(u.side, n)
      && c.gross - QueueValue(c.queue)
         == b.gross - QueueValue(b.queue) - Times(n, SignedValue(u.side, PerUnit(u.price)))
    decreases n
  {
    if n > 0 {
      QueueAppend(b.queue, u);
      UnitsConserve(TradeUnit(b, u), u, n - 1);
    }
  }

  function TradedSize(fills: seq<Fill>, asset: string, side: Side): nat {
    if fills == [] then 0
    else
      var f := fills[|fills| - 1];
      TradedSize(fills[..|fills| - 1], asset, side) + (if f.asset == asset && f.side == side then f.size else 0)
  }

  function FillValue(f: Fill): real {
    PerUnit(f.price) * f.size as real
  }

  function TradedValue(fills: seq<Fill>, asset: string, side: Side): real {
    if fills == [] then 0.0
    else
      var f := fills[|fills| - 1];
      TradedValue(fills[..|fills| - 1], asset, side)
      + (if f.asset == asset && f.side == side then FillValue(f) else 0.0)
  }

  lemma FillConserves(b: UnitBook, f: Fill)
    ensures var c := TradeUnits(b, UnitOf(f), f.size);
      && QueueCount(c.queue) == QueueCount(b.queue) + SignedSize(f.side, f.size)
      && c.gross - QueueValue(c.queue) == b.gross - QueueValue(b.queue) - SignedValue(f.side, FillValue(f))
  {
    UnitsConserve(b, UnitOf(f), f.size);
    TimesIsProduct(f.size, SignedValue(f.side, PerUnit(f.price)));
  }

  lemma {:induction false} TradingConserves(fills: seq<Fill>, asset: string)
    ensures var b := TradeFills(fills, asset);
      && QueueCount(b.queue) == TradedSize(fills, asset, Long) - TradedSize(fills, asset, Short)
      && b.gross == TradedValue(fills, asset, Short) - TradedValue(fills, asset, Long) + QueueValue(b.queue)
  {
    if fills != [] {
      TradingConserves(fills[..|fills| - 1], asset);
      FillConserves(TradeFills(fills[..|fills| - 1], asset), fills[|fills| - 1]);
    }
  }

  function TotalSize(lots: seq<Lot>): nat {
    if lots == [] then 0 else lots[0].size + TotalSize(lots[1..])
  }

  /** The open position as the asset summary reports it: the side of the first lot times the
      summed sizes. */
  function OpenQuantity(lots: seq<Lot>): int {
    if lots == [] then 0 else SignedSize(lots[0].side, TotalSize(lots))
  }

  function LotValue(lot: Lot): real {
    PerUnit(lot.price) * lot.size as real
  }

  /** Signed entry value of the open lots. */
  function EntryValue(lots: seq<Lot>): real {
    if lots == [] then 0.0 else SignedValue(lots[0].side, LotValue(lots[0])) + EntryValue(lots[1..])
  }

  lemma {:induction false} CopiesCount(u: Unit, n: nat, rest: seq<Unit>)
    ensures QueueCount(Copies(u, n) + rest) == SignedSize(u.side, n) + QueueCount(rest)
    ensures QueueValue(Copies(u, n) + rest) == Times(n, SignedValue(u.side, PerUnit(u.price))) + QueueValue(rest)
  {
    if n == 0 {
      assert Copies(u, 0) + rest == rest;
    } else {
      assert (Copies(u, n) + rest)[1..] == Copies(u, n - 1) + rest;
      CopiesCount(u, n - 1, rest);
    }
  }

  lemma {:induction false} LotsCount(lots: seq<Lot>)
    requires OneSided(lots)
    ensures QueueCount(Expand(lots)) == OpenQuantity(lots)
    ensures QueueValue(Expand(lots)) == EntryValue(lots)
  {
    if lots != [] {
      var lot := lots[0];
      assert |lots| > 1 ==> lots[1].side == lot.side;
      LotsCount(lots[1..]);
      CopiesCount(UnitIn(lot), lot.size, Expand(lots[1..]));
      EntryStep(lots);
    }
  }

  lemma EntryStep(lots: seq<Lot>)
    requires lots != []
    ensures EntryValue(lots)
            == Times(lots[0].size, SignedValue(lots[0].side, PerUnit(lots[0].price))) + EntryValue(lots[1..])
  {
    TimesIsProduct(lots[0].size, SignedValue(lots[0].side, PerUnit(lots[0].price)));
  }

  lemma {:induction false} SameLotsCount(x: seq<Lot>, y: seq<Lot>)
    requires SameLots(x, y)
    ensures TotalSize(x) == TotalSize(y) && OpenQuantity(x) == OpenQuantity(y) && EntryValue(x) == EntryValue(y)
  {
    if x != [] {
      SameLotsCount(x[1..], y[1..]);
    }
  }

  /** For every fill sequence and asset: the signed open quantity is total bought minus total
      sold, and realized gross profit is sale proceeds minus purchase cost plus the signed
      entry value of the open lots. */
  lemma PositionAndProfitConserved(fills: seq<Fill>, r: Rounding, asset: string)
    ensures var book := Lookup(Ledger(fills, r), asset);
      && OpenQuantity(book.lots) == TradedSize(fills, asset, Long) - TradedSize(fills, asset, Short)
      && book.gross == TradedValue(fills, asset, Short) - TradedValue(fills, asset, Long) + EntryValue(book.lots)
  {
    var book, exact := Lookup(Ledger(fills, r), asset), Lookup(Ledger(fills, Exact), asset);
    LedgerNear(fills, r, asset);
    ExactLotsAreTheFifoRemainder(fills, asset);
    LotsCount(exact.lots);
    SameLotsCount(book.lots, exact.lots);
    TradingConserves(fills, asset);
  }

  // ---- fees ----

  function FeesHeld(lots: seq<Lot>): real {
    if lots == [] then 0.0 else lots[0].fee + FeesHeld(lots[1..])
  }

  predicate NoNegativeFee(lots: seq<Lot>) {
    forall i :: 0 <= i < |lots| ==> lots[i].fee >= 0.0
  }

  lemma ShareFacts(fee: real, a: nat, b: nat, whole: nat)
    requires whole > 0
    ensures Share(fee, a, whole) + Share(fee, b, whole) == Share(fee, a + b, whole)
    ensures Share(fee, whole, whole) == fee && Share(fee, 0, whole) == 0.0
  {
    var w := whole as real;
    assert fee * a as real / w + fee * b as real / w == (fee * a as real + fee * b as real) / w;
    assert fee * a as real + fee * b as real == fee * (a + b) as real;
  }

  lemma ShareIsPart(fee: real, part: nat, whole: nat)
    requires whole > 0 && part <= whole && fee >= 0.0
    ensures 0.0 <= Share(fee, part, whole) <= fee
  {
    ProductIsOrdered(fee, part as real, whole as real);
    QuotientIsBounded(fee * part as real, fee, whole as real);
  }

  lemma ProductIsOrdered(fee: real, a: real, b: real)
    requires fee >= 0.0 && 0.0 <= a <= b
    ensures 0.0 <= fee * a <= fee * b
  {
    assert fee * b - fee * a == fee * (b - a);
  }

  lemma QuotientIsBounded(x: real, y: real, w: real)
    requires w > 0.0 && 0.0 <= x <= y * w
    ensures 0.0 <= x / w <= y
  {
    assert x / w * w == x;
    assert (y - x / w) * w == y * w - x;
  }

  lemma {:induction false} ReplaceFees(lots: seq<Lot>, i: nat, left: Lot)
    requires i < |lots|
    ensures FeesHeld(ReplaceLot(lots, i, left))
      == FeesHeld(lots) - lots[i].fee + (if left.size == 0 then 0.0 else left.fee)
  {
    var after := ReplaceLot(lots, i, left);
    if i == 0 {
      assert left.size == 0 ==> after == lots[1..];
      assert left.size > 0 ==> after[1..] == lots[1..];
    } else {
      ReplaceFees(lots[1..], i - 1, left);
      assert after[1..] == ReplaceLot(lots[1..], i - 1, left);
    }
  }

  lemma {:induction false} AppendFee(lots: seq<Lot>, lot: Lot)
    ensures FeesHeld(lots + [lot]) == FeesHeld(lots) + lot.fee
  {
    if lots == [] {
      assert lots + [lot] == [lot] && [lot][1..] == [];
    } else {
      assert (lots + [lot])[1..] == lots[1..] + [lot];
      AppendFee(lots[1..], lot);
    }
  }

  /** Fees paid that are neither in realized results, nor held by open lots, nor still to be
      allocated by the current fill. */
  function Gap(b: Book, pending: real): real {
    b.fees - (b.gross - b.net) - FeesHeld(b.lots) - pending
  }

  lemma CloseLotGap(b: Book, i: nat, close: nat, f: Fill, r: Rounding, remaining: nat)
    requires i < |b.lots| && 0 < close <= b.lots[i].size && close <= remaining <= f.size
    ensures Within(Gap(CloseLot(b, i, close, f, r), Share(f.fees, remaining - close, f.size)),
                   Gap(b, Share(f.fees, remaining, f.size)), Slack(r))
  {
    var lot := b.lots[i];
    var left := LeftOver(lot, close, r);
    ReplaceFees(b.lots, i, left);
    ShareFacts(f.fees, close, remaining - close, f.size);
    ShareFacts(lot.fee, close, 0, lot.size);
    RoundingIsClose(r, lot.fee - Share(lot.fee, close, lot.size));
  }

  lemma CloseLotFees(b: Book, i: nat, close: nat, f: Fill, r: Rounding)
    requires i < |b.lots| && 0 < close <= b.lots[i].size && f.size > 0 && NoNegativeFee(b.lots)
    ensures NoNegativeFee(CloseLot(b, i, close, f, r).lots)
  {
    ShareIsPart(b.lots[i].fee, close, b.lots[i].size);
    RoundingIsClose(r, b.lots[i].fee - Share(b.lots[i].fee, close, b.lots[i].size));
  }

  lemma GapAdds(x: real, y: real, z: real, n: nat, slack: real)
    requires Within(y, x, slack) && Within(z, y, Times(n, slack))
    ensures Within(z, x, Times(n + 1, slack))
  {
  }

  /** What the closing loop leaves: no negative fee, and a gap moved by at most `slack` per event. */
  predicate GapKept(b: Book, pending: real, c: Book, left: real, slack: real) {
    && NoNegativeFee(c.lots) && |b.events| <= |c.events|
    && Within(Gap(c, left), Gap(b, pending), Times(|c.events| - |b.events|, slack))
  }

  lemma GapStep(b: Book, pending: real, next: Book, pending': real, c: Book, left: real, slack: real)
    requires |next.events| == |b.events| + 1 && Within(Gap(next, pending'), Gap(b, pending), slack)
    requires GapKept(next, pending', c, left, slack)
    ensures GapKept(b, pending, c, left, slack)
  {
    GapAdds(Gap(b, pending), Gap(next, pending'), Gap(c, left), |c.events| - |next.events|, slack);
  }

  lemma {:induction false} CloseAllGap(b: Book, remaining: nat, f: Fill, r: Rounding)
    requires remaining <= f.size && f.size > 0 && NoNegativeFee(b.lots)
    ensures CloseAll(b, remaining, f, r).1 <= f.size
    ensures GapKept(b, Share(f.fees, remaining, f.size), CloseAll(b, remaining, f, r).0,
                    Share(f.fees, CloseAll(b, remaining, f, r).1, f.size), Slack(r))
    decreases remaining
  {
    var i := FindLot(b.lots, Opposite(f.side));
    if remaining > 0 && i < |b.lots| {
      var close := Min(remaining, b.lots[i].size);
      var next := CloseLot(b, i, close, f, r);
      CloseLotGap(b, i, close, f, r, remaining);
      CloseLotFees(b, i, close, f, r);
      CloseAllGap(next, remaining - close, f, r);
      var (c, left) := CloseAll(next, remaining - close, f, r);
      GapStep(b, Share(f.fees, remaining, f.size), next, Share(f.fees, remaining - close, f.size),
              c, Share(f.fees, left, f.size), Slack(r));
    }
  }

  /** A fill of at least one unit moves the gap by at most half a unit per event it writes; a
      fill that rounds to no units adds its whole fee to the gap. */
  lemma ApplyFillGap(b: Book, f: Fill, r: Rounding)
    requires NoNegativeFee(b.lots) && f.fees >= 0.0
    ensures GapKept(b, if f.size == 0 then -f.fees else 0.0, ApplyFill(b, f, r), 0.0, Slack(r))
  {
    if f.size > 0 {
      WorkedFillGap(b, f, r);
      CountingMovesGap(b, f, ApplyFill(b, f, r), Slack(r));
    } else {
      assert ApplyFill(b, f, r) == Counted(b, f);
    }
  }

  /** Counting a fill makes its fee pending. */
  lemma CountingMovesGap(b: Book, f: Fill, c: Book, slack: real)
    requires GapKept(Counted(b, f), f.fees, c, 0.0, slack)
    ensures GapKept(b, 0.0, c, 0.0, slack)
  {
  }

  lemma WorkedFillGap(b: Book, f: Fill, r: Rounding)
    requires NoNegativeFee(b.lots) && f.fees >= 0.0 && f.size > 0
    ensures GapKept(Counted(b, f), f.fees, ApplyFill(b, f, r), 0.0, Slack(r))
  {
    var start, kind := Counted(b, f), OpeningKind(b.lots, f);
    var (c, left) := CloseAll(start, f.size, f, r);
    ShareFacts(f.fees, 0, 0, f.size);
    CloseAllGap(start, f.size, f, r);
    if left > 0 {
      OpenLotGap(c, left, f, r, kind);
      OpenStep(start, f.fees, c, Share(f.fees, left, f.size), OpenLot(c, left, f, r, kind), Slack(r));
    }
  }

  lemma OpenStep(b: Book, pending: real, c: Book, left: real, d: Book, slack: real)
    requires GapKept(b, pending, c, left, slack)
    requires |d.events| == |c.events| + 1 && NoNegativeFee(d.lots) && Within(Gap(d, 0.0), Gap(c, left), slack)
    ensures GapKept(b, pending, d, 0.0, slack)
  {
  }

  lemma OpenLotGap(b: Book, remaining: nat, f: Fill, r: Rounding, kind: Kind)
    requires 0 < remaining <= f.size && NoNegativeFee(b.lots) && f.fees >= 0.0
    ensures var c := OpenLot(b, remaining, f, r, kind);
      && NoNegativeFee(c.lots)
      && Within(Gap(c, 0.0), Gap(b, Share(f.fees, remaining, f.size)), Slack(r))
  {
    var fee := Share(f.fees, remaining, f.size);
    ShareIsPart(f.fees, remaining, f.size);
    RoundingIsClose(r, fee);
    AppendFee(b.lots, Lot(f.side, remaining, f.price, Rounded(r, fee)));
  }

  /** Fees of fills too small to make one unit. */
  function LostFees(fills: seq<Fill>, asset: string): real {
    if fills == [] then 0.0
    else
      var f := fills[|fills| - 1];
      LostFees(fills[..|fills| - 1], asset) + (if f.asset == asset && f.size == 0 then f.fees else 0.0)
  }

  /** For every fill sequence and asset, total fees are realized gross minus realized net plus
      the fees still held in open lots plus the fees of fills of no units, within half a unit
      per ledger event (exactly, without rounding); and no lot's remaining fee is negative. */
  lemma {:induction false} FeesAreConserved(fills: seq<Fill>, r: Rounding, asset: string)
    requires FeesNonNegative(fills)
    ensures var book := Lookup(Ledger(fills, r), asset);
      && NoNegativeFee(book.lots)
      && Within(book.fees - (book.gross - book.net) - FeesHeld(book.lots), LostFees(fills, asset),
                Times(|book.events|, Slack(r)))
  {
    if fills != [] {
      var before, f := fills[..|fills| - 1], fills[|fills| - 1];
      FeesAreConserved(before, r, asset);
      if f.asset == asset {
        var book := Lookup(Ledger(before, r), asset);
        ApplyFillGap(book, f, r);
        GapExtends(book, f, ApplyFill(book, f, r), LostFees(before, asset), Slack(r));
      }
    }
  }

  lemma GapExtends(b: Book, f: Fill, c: Book, lost: real, slack: real)
    requires Within(Gap(b, 0.0), lost, Times(|b.events|, slack))
    requires GapKept(b, if f.size == 0 then -f.fees else 0.0, c, 0.0, slack)
    ensures Within(Gap(c, 0.0), lost + (if f.size == 0 then f.fees else 0.0), Times(|c.events|, slack))
  {
    TimesAdds(|b.events|, |c.events| - |b.events|, slack);
  }

  /** Whatever executions are recorded, the ledger built from them accounts for its fees. */
  lemma BuiltLedgerConservesFees(raw: seq<RawFill>, asset: string)
    ensures var book := Lookup(Ledger(Fills(raw), EightDecimals), asset);
      && NoNegativeFee(book.lots)
      && Within(book.fees - (book.gross - book.net) - FeesHeld(book.lots), LostFees(Fills(raw), asset),
                Times(|book.events|, HALF_UNIT))
  {
    FillsHaveFees(raw);
    FeesAreConserved(Fills(raw), EightDecimals, asset);
  }

  /** Without rounding the fee identity holds exactly when no fee was charged on a fill of no
      units. */
  lemma ExactFeeIdentity(fills: seq<Fill>, asset: string)
    requires FeesNonNegative(fills)
    ensures var book := Lookup(Ledger(fills, Exact), asset);
      book.fees == book.gross - book.net + FeesHeld(book.lots) <==> LostFees(fills, asset) == 0.0
  {
    FeesAreConserved(fills, Exact, asset);
    TimesIsProduct(|Lookup(Ledger(fills, Exact), asset).events|, 0.0);
  }

  /** A valid fill becomes a fill of no units exactly when it is smaller than half a unit. */
  lemma TinyFill(f: RawFill)
    requires ValidRaw(f)
    ensures Normalized(f).size == 0 <==> f.size < HALF_UNIT
  {
    assert HALF_UNIT * UNITS == 0.5;
    assert f.size < HALF_UNIT <==> f.size * UNITS < 0.5;
  }

  /** Such a fill with a fee of more than half a unit breaks the identity: its fee is counted in the
      total and charged to nothing. */
  lemma TinyFillBreaksIdentity(f: RawFill)
    requires ValidRaw(f) && f.size < HALF_UNIT && f.fees > HALF_UNIT
    ensures var fills := [Normalized(f)];
      var book := Lookup(Ledger(fills, Exact), f.asset);
      book.fees != book.gross - book.net + FeesHeld(book.lots)
  {
    var g := Normalized(f);
    TinyFill(f);
    RoundingIsClose(EightDecimals, f.fees);
    assert [g][..0] == [];
    ExactFeeIdentity([g], f.asset);
  }

  // ---- events ----

  predicate Opening(k: Kind) {
    k.Entry? || k.Increase? || k.Flip?
  }

  predicate Opens(e: Event) {
    Opening(e.kind)
  }

  /** Quantity opened minus quantity closed on a side, according to the events. */
  function OpenedSize(events: seq<Event>, side: Side): int {
    if events == [] then 0
    else
      var e := events[|events| - 1];
      OpenedSize(events[..|events| - 1], side)
      + (if e.side != side then 0 else if Opens(e) then e.quantity as int else 0 - e.quantity)
  }

  /** Lots opened minus lots exited on a side, according to the events. */
  function OpenedLots(events: seq<Event>, side: Side): int {
    if events == [] then 0
    else
      var e := events[|events| - 1];
      OpenedLots(events[..|events| - 1], side)
      + (if e.side != side then 0 else if Opens(e) then 1 else if e.kind.Exit? then -1 else 0)
  }

  function SizeOn(lots: seq<Lot>, side: Side): nat {
    if lots == [] then 0 else (if lots[0].side == side then lots[0].size else 0) + SizeOn(lots[1..], side)
  }

  function CountOn(lots: seq<Lot>, side: Side): nat {
    if lots == [] then 0 else (if lots[0].side == side then 1 else 0) + CountOn(lots[1..], side)
  }

  predicate Accounted(b: Book, side: Side) {
    OpenedSize(b.events, side) == SizeOn(b.lots, side) && OpenedLots(b.events, side) == CountOn(b.lots, side)
  }

  lemma {:induction false} ReplaceCounts(lots: seq<Lot>, i: nat, left: Lot, side: Side)
    requires i < |lots| && left.side == lots[i].side && left.size <= lots[i].size
    ensures var after := ReplaceLot(lots, i, left);
      && SizeOn(after, side) == SizeOn(lots, side) - (if left.side == side then lots[i].size - left.size else 0)
      && CountOn(after, side) == CountOn(lots, side) - (if left.side == side && left.size == 0 then 1 else 0)
  {
    var after := ReplaceLot(lots, i, left);
    if i == 0 {
      assert left.size == 0 ==> after == lots[1..];
      assert left.size > 0 ==> after[1..] == lots[1..];
    } else {
      ReplaceCounts(lots[1..], i - 1, left, side);
      assert after[1..] == ReplaceLot(lots[1..], i - 1, left);
    }
  }

  lemma {:induction false} AppendCounts(lots: seq<Lot>, lot: Lot, side: Side)
    ensures SizeOn(lots + [lot], side) == SizeOn(lots, side) + (if lot.side == side then lot.size else 0)
    ensures CountOn(lots + [lot], side) == CountOn(lots, side) + (if lot.side == side then 1 else 0)
  {
    if lots == [] {
      assert lots + [lot] == [lot] && [lot][1..] == [];
    } else {
      assert (lots + [lot])[1..] == lots[1..] + [lot];
      AppendCounts(lots[1..], lot, side);
    }
  }

  lemma EventAppend(events: seq<Event>, e: Event, side: Side)
    ensures OpenedSize(events + [e], side) - OpenedSize(events, side)
      == if e.side != side then 0 else if Opens(e) then e.quantity as int else 0 - e.quantity
    ensures OpenedLots(events + [e], side) - OpenedLots(events, side)
      == if e.side != side then 0 else if Opens(e) then 1 else if e.kind.Exit? then -1 else 0
  {
    assert (events + [e])[..|events|] == events;
  }

  lemma CloseLotAccounted(b: Book, i: nat, close: nat, f: Fill, r: Rounding, side: Side)
    requires i < |b.lots| && 0 < close <= b.lots[i].size && f.size > 0 && Accounted(b, side)
    ensures Accounted(CloseLot(b, i, close, f, r), side)
  {
    var left := LeftOver(b.lots[i], close, r);
    ReplaceCounts(b.lots, i, left, side);
    EventAppend(b.events, Event(if left.size == 0 then Exit else Reduce, b.lots[i].side, close), side);
  }

  lemma OpenLotAccounted(b: Book, left: nat, f: Fill, r: Rounding, kind: Kind, side: Side)
    requires 0 < left <= f.size && Opening(kind) && Accounted(b, side)
    ensures Accounted(OpenLot(b, left, f, r, kind), side)
  {
    AppendCounts(b.lots, Lot(f.side, left, f.price, Rounded(r, Share(f.fees, left, f.size))), side);
    EventAppend(b.events, Event(kind, f.side, left), side);
  }

  /** What closing one lot keeps. */
  ghost predicate KeptByClosing(p: Book -> bool, f: Fill, r: Rounding) {
    forall b: Book, i: nat, close: nat ::
      p(b) && i < |b.lots| && 0 < close <= b.lots[i].size && b.lots[i].side == Opposite(f.side) && f.size > 0
      ==> p(CloseLot(b, i, close, f, r))
  }

  /** The closing loop keeps it too. */
  lemma {:induction false} CloseAllKeeps(b: Book, remaining: nat, f: Fill, r: Rounding, p: Book -> bool)
    requires remaining <= f.size && p(b) && KeptByClosing(p, f, r)
    ensures p(CloseAll(b, remaining, f, r).0)
    decreases remaining
  {
    var i := FindLot(b.lots, Opposite(f.side));
    if remaining > 0 && i < |b.lots| {
      var close := Min(remaining, b.lots[i].size);
      CloseAllKeeps(CloseLot(b, i, close, f, r), remaining - close, f, r, p);
    }
  }

  lemma CloseAllAccounted(b: Book, remaining: nat, f: Fill, r: Rounding, side: Side)
    requires remaining <= f.size && Accounted(b, side)
    ensures Accounted(CloseAll(b, remaining, f, r).0, side)
  {
    forall b: Book, i: nat, close: nat
      | i < |b.lots| && 0 < close <= b.lots[i].size && f.size > 0 && Accounted(b, side)
      ensures Accounted(CloseLot(b, i, close, f, r), side)
    {
      CloseLotAccounted(b, i, close, f, r, side);
    }
    CloseAllKeeps(b, remaining, f, r, (c: Book) => Accounted(c, side));
  }

  lemma ApplyFillAccounted(b: Book, f: Fill, r: Rounding, side: Side)
    requires Accounted(b, side)
    ensures Accounted(ApplyFill(b, f, r), side)
  {
    CloseAllAccounted(Counted(b, f), f.size, f, r, side);
    var (c, left) := CloseAll(Counted(b, f), f.size, f, r);
    if 0 < left <= f.size {
      OpenLotAccounted(c, left, f, r, OpeningKind(b.lots, f), side);
    }
  }

  /** For every fill sequence, asset and side: the quantities of the opening events minus those of
      the closing events are the open size, and every lot ever opened is open or has its exit. */
  lemma {:induction false} EventsAccountForLots(fills: seq<Fill>, r: Rounding, asset: string, side: Side)
    ensures var book := Lookup(Ledger(fills, r), asset);
      && OpenedSize(book.events, side) == SizeOn(book.lots, side)
      && OpenedLots(book.events, side) == CountOn(book.lots, side)
  {
    if fills != [] {
      var before, f := fills[..|fills| - 1], fills[|fills| - 1];
      EventsAccountForLots(before, r, asset, side);
      if f.asset == asset {
        ApplyFillAccounted(Lookup(Ledger(before, r), asset), f, r, side);
      }
    }
  }

  function PaidFees(fills: seq<Fill>, asset: string): real {
    if fills == [] then 0.0
    else
      var f := fills[|fills| - 1];
      PaidFees(fills[..|fills| - 1], asset) + (if f.asset == asset then f.fees else 0.0)
  }

  /** What one fill writes: closing events on the other side, then at most one opening event on its
      own side; its totals are those of the counted book. */
  predicate Wrote(b: Book, f: Fill, c: Book) {
    && b.fees == c.fees && b.bought == c.bought && b.sold == c.sold
    && |b.events| <= |c.events| && b.events == c.events[..|b.events|]
    && forall i :: |b.events| <= i < |c.events| ==> !Opens(c.events[i]) && c.events[i].side == Opposite(f.side)
  }

  predicate ReduceLeavesLot(b: Book) {
    b.events != [] && b.events[|b.events| - 1].kind.Reduce? ==> b.lots != []
  }

  lemma {:induction false} CloseAllLeft(b: Book, remaining: nat, f: Fill, r: Rounding)
    requires remaining <= f.size
    ensures var (c, left) := CloseAll(b, remaining, f, r);
      left <= remaining && if left == remaining then c == b else |b.events| < |c.events|
    decreases remaining
  {
    var i := FindLot(b.lots, Opposite(f.side));
    if remaining > 0 && i < |b.lots| {
      var close := Min(remaining, b.lots[i].size);
      CloseAllLeft(CloseLot(b, i, close, f, r), remaining - close, f, r);
    }
  }

  lemma CloseAllWrote(b: Book, remaining: nat, f: Fill, r: Rounding)
    requires remaining <= f.size
    ensures var (c, left) := CloseAll(b, remaining, f, r);
      && Wrote(b, f, c) && left <= remaining && (left == remaining ==> c == b)
      && (left < remaining ==> |b.events| < |c.events| && ReduceLeavesLot(c))
  {
    var p := (c: Book) => Wrote(b, f, c) && (c == b || ReduceLeavesLot(c));
    forall c: Book, i: nat, close: nat
      | p(c) && i < |c.lots| && 0 < close <= c.lots[i].size && c.lots[i].side == Opposite(f.side) && f.size > 0
      ensures p(CloseLot(c, i, close, f, r))
    {
      CloseLotWrote(c, i, close, f, r);
      WroteStep(b, f, c, CloseLot(c, i, close, f, r));
    }
    CloseAllKeeps(b, remaining, f, r, p);
    CloseAllLeft(b, remaining, f, r);
  }

  lemma CloseLotWrote(b: Book, i: nat, close: nat, f: Fill, r: Rounding)
    requires i < |b.lots| && 0 < close <= b.lots[i].size && f.size > 0 && b.lots[i].side == Opposite(f.side)
    ensures var c := CloseLot(b, i, close, f, r);
      Wrote(b, f, c) && |b.events| < |c.events| && ReduceLeavesLot(c)
  {
  }

  lemma WroteStep(b: Book, f: Fill, next: Book, c: Book)
    requires Wrote(b, f, next) && Wrote(next, f, c)
    ensures Wrote(b, f, c)
  {
    assert b.events == c.events[..|next.events|][..|b.events|];
    forall i | |b.events| <= i < |c.events| ensures !Opens(c.events[i]) && c.events[i].side == Opposite(f.side) {
      assert i < |next.events| ==> c.events[i] == next.events[i];
    }
  }

  lemma ApplyFillTotals(b: Book, f: Fill, r: Rounding)
    ensures var c := ApplyFill(b, f, r);
      c.fees == Counted(b, f).fees && c.bought == Counted(b, f).bought && c.sold == Counted(b, f).sold
  {
    CloseAllWrote(Counted(b, f), f.size, f, r);
  }

  /** The reported totals count every fill of the asset. */
  lemma {:induction false} TotalsCountEveryFill(fills: seq<Fill>, r: Rounding, asset: string)
    ensures var book := Lookup(Ledger(fills, r), asset);
      && book.fees == PaidFees(fills, asset)
      && book.bought == TradedSize(fills, asset, Long)
      && book.sold == TradedSize(fills, asset, Short)
  {
    if fills != [] {
      var before, f := fills[..|fills| - 1], fills[|fills| - 1];
      TotalsCountEveryFill(before, r, asset);
      if f.asset == asset {
        ApplyFillTotals(Lookup(Ledger(before, r), asset), f, r);
      }
    }
  }

  /** Whether a position is on a side. */
  predicate On(side: Side, quantity: int) {
    if side.Long? then quantity > 0 else quantity < 0
  }

  /** The position moves by the fill's signed size, and the events say how. */
  predicate Moved(b: Book, f: Fill, c: Book) {
    && OpenQuantity(c.lots) == OpenQuantity(b.lots) + SignedSize(f.side, f.size)
    && |c.events| >= |b.events| + (if f.size == 0 then 0 else 1) && c.events[..|b.events|] == b.events
    && (forall i :: |b.events| <= i < |c.events| - 1 ==> !Opens(c.events[i]) && c.events[i].side == Opposite(f.side))
    && if f.size == 0 then c.events == b.events
       else LastEvent(f.side, c.events[|c.events| - 1], OpenQuantity(b.lots), OpenQuantity(c.lots))
  }

  /** What the last event of a fill on `side` says about the position before and after it. */
  predicate LastEvent(side: Side, e: Event, before: int, after: int) {
    match e.kind
    case Entry => e.side == side && before == 0
    case Increase => e.side == side && On(side, before)
    case Flip => e.side == side && On(Opposite(side), before) && On(side, after)
    case Reduce => e.side == Opposite(side) && On(Opposite(side), before) && On(Opposite(side), after)
    case Exit => e.side == Opposite(side) && On(Opposite(side), before) && !On(side, after)
  }

  /** A fill moves the position by its signed size, and the last event it writes says how: an entry
      from flat, an increase in the fill's direction, a flip from the other side to its own, or a
      reduction that stays on the other side or ends flat. */
  lemma LastEventDescribesMove(b: Book, f: Fill, r: Rounding)
    requires OneSided(b.lots)
    ensures Moved(b, f, ApplyFill(b, f, r))
  {
    FillMoves(b, f, r);
    KindFromSide(b.lots, f);
    KindFromSide(ApplyFill(b, f, r).lots, f);
    FindInOneSided(b.lots, Opposite(f.side));
    CloseAllWrote(Counted(b, f), f.size, f, r);
    var (c, left) := CloseAll(Counted(b, f), f.size, f, r);
    if left > 0 {
      OpenedMoves(b, f, c, left, r);
    } else if f.size > 0 {
      ClosingKeepsSide(Counted(b, f), f.size, f, r, b.lots[0].side);
      ClosedMoves(b, f, c);
    }
  }

  lemma OpenedMoves(b: Book, f: Fill, c: Book, left: nat, r: Rounding)
    requires Wrote(Counted(b, f), f, c) && 0 < left <= f.size && OneSided(b.lots)
    requires var d := OpenLot(c, left, f, r, OpeningKind(b.lots, f));
      OneSided(d.lots) && OpenQuantity(d.lots) == OpenQuantity(b.lots) + SignedSize(f.side, f.size)
    ensures Moved(b, f, OpenLot(c, left, f, r, OpeningKind(b.lots, f)))
  {
    var d := OpenLot(c, left, f, r, OpeningKind(b.lots, f));
    KindFromSide(b.lots, f);
    KindFromSide(d.lots, f);
    assert d.lots[|d.lots| - 1].side == f.side;
  }

  lemma ClosedMoves(b: Book, f: Fill, c: Book)
    requires Wrote(Counted(b, f), f, c) && f.size > 0
    requires |b.events| < |c.events| && ReduceLeavesLot(c)
    requires b.lots != [] && b.lots[0].side != f.side && TotalSize(b.lots) > 0
    requires c.lots != [] ==> c.lots[0].side != f.side && TotalSize(c.lots) > 0
    requires OpenQuantity(c.lots) == OpenQuantity(b.lots) + SignedSize(f.side, f.size)
    ensures Moved(b, f, c)
  {
  }

  lemma FillMoves(b: Book, f: Fill, r: Rounding)
    requires OneSided(b.lots)
    ensures OneSided(ApplyFill(b, f, r).lots)
    ensures OpenQuantity(ApplyFill(b, f, r).lots) == OpenQuantity(b.lots) + SignedSize(f.side, f.size)
  {
    var exact := ApplyFill(b, f, Exact);
    NearItself(b, r);
    ApplyFillNear(b, b, f, r);
    SameLotsCount(ApplyFill(b, f, r).lots, exact.lots);
    ApplyFillIsUnits(b, f);
    LotsCount(b.lots);
    LotsCount(exact.lots);
    FillConserves(Units(b), f);
  }

  lemma NearItself(b: Book, r: Rounding)
    requires OneSided(b.lots)
    ensures Near(b, b, Slack(r))
  {
    NoDistance(b.lots);
    TimesIsProduct(|b.events|, Slack(r));
  }

  lemma {:induction false} NoDistance(lots: seq<Lot>)
    ensures FeeDistance(lots, lots) == 0.0
  {
    if lots != [] {
      NoDistance(lots[1..]);
    }
  }

  predicate AllOn(side: Side, lots: seq<Lot>) {
    forall i :: 0 <= i < |lots| ==> lots[i].side == side
  }

  lemma ClosingKeepsSide(b: Book, remaining: nat, f: Fill, r: Rounding, side: Side)
    requires remaining <= f.size && AllOn(side, b.lots)
    ensures AllOn(side, CloseAll(b, remaining, f, r).0.lots)
  {
    CloseAllKeeps(b, remaining, f, r, (c: Book) => AllOn(side, c.lots));
  }

  lemma KindFromSide(lots: seq<Lot>, f: Fill)
    requires OneSided(lots)
    ensures OpeningKind(lots, f) == if lots == [] then Entry else if lots[0].side == f.side then Increase else Flip
    ensures lots != [] ==> TotalSize(lots) > 0
  {
    if lots != [] {
      assert HasSide(lots, lots[0].side);
      assert !HasSide(lots, Opposite(lots[0].side));
    }
  }
}
