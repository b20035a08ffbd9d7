/**
 * The anomaly detector's sliding windows: samples are folded into one-second buckets and whole
 * buckets are dropped once they fall behind the window. Over the real numbers, what the detector
 * reads off its buckets is the plain statistics of the samples in the window.
 */
module AnomalyDetector {
  import Csv
  import opened Welford

  type Option<T> = Csv.Option<T>

  function BucketStart(observedMs: int): int {
    observedMs / 1000 * 1000
  }

  /** A bucket is a whole second, and lies in the window exactly when the time is not before the first
      full second after the cutoff. */
  lemma BucketIsItsSecond(at: int, cutoff: int)
    ensures BucketStart(at) % 1000 == 0 && BucketStart(at) <= at < BucketStart(at) + 1000
    ensures BucketStart(at) >= cutoff <==> at >= cutoff + (-cutoff) % 1000
  {
    var first := cutoff + (-cutoff) % 1000;
    assert first % 1000 == 0;
    assert cutoff <= first < cutoff + 1000;
  }

  datatype Events = Events(cancellations: nat, executions: nat)

  datatype Kind = Cancellation | Execution

  function Of(e: Events, kind: Kind): nat {
    if kind == Cancellation then e.cancellations else e.executions
  }

  /** What one call observes: its time, the mid price if the book has one, and its top-of-book events. */
  datatype Tick = Tick(at: int, mid: Option<real>, events: Events)

  datatype Bucket<T> = Bucket(start: int, value: T)

  // ---- operations on buckets ----

  /** The buckets that start at or after `cutoff`, in order. */
  function Since<T>(buckets: seq<Bucket<T>>, cutoff: int): seq<Bucket<T>> {
    if buckets == [] then []
    else
      var front, last := Since(buckets[..|buckets| - 1], cutoff), buckets[|buckets| - 1];
      if last.start >= cutoff then front + [last] else front
  }

  /** Merges the buckets that start at or after `minimum`, in order. */
  function MergeStatsBuckets(buckets: seq<Bucket<Stats>>, minimum: int): Stats {
    MergeAll(Since(buckets, minimum))
  }

  function MergeAll(buckets: seq<Bucket<Stats>>): Stats {
    if buckets == [] then EMPTY
    else Merge(MergeAll(buckets[..|buckets| - 1]), buckets[|buckets| - 1].value)
  }

  function TotalEvents(buckets: seq<Bucket<Events>>, kind: Kind): nat {
    if buckets == [] then 0
    else TotalEvents(buckets[..|buckets| - 1], kind) + Of(buckets[|buckets| - 1].value, kind)
  }

  function Put<T>(buckets: seq<Bucket<T>>, k: nat, b: Bucket<T>): seq<Bucket<T>>
    requires k <= |buckets|
  {
    if k < |buckets| then buckets[k := b] else buckets + [b]
  }

  /** The index of the bucket of a second, or the number of buckets when there is none. */
  method FindBucket<T>(buckets: seq<Bucket<T>>, start: int) returns (k: nat)
    ensures IsPlace(buckets, start, k)
  {
    k := 0;
    while k < |buckets| && buckets[k].start != start
      invariant k <= |buckets|
      invariant forall i :: 0 <= i < k ==> buckets[i].start != start
    {
      k := k + 1;
    }
  }

  /** `k` is where the bucket of `start` is, or where it would be added. */
  predicate IsPlace<T>(buckets: seq<Bucket<T>>, start: int, k: nat) {
    && k <= |buckets|
    && (k < |buckets| ==> buckets[k].start == start)
    && forall i :: 0 <= i < k ==> buckets[i].start != start
  }

  // ---- the specification: samples, not buckets ----

  /** Samples in the order they arrived, each with the second it belongs to. */
  datatype Samples<T> = Nothing | More(rest: Samples<T>, start: int, value: T)

  function KeepSince<T>(samples: Samples<T>, cutoff: int): Samples<T> {
    match samples
    case Nothing => Nothing
    case More(rest, start, value) =>
      if start >= cutoff then More(KeepSince(rest, cutoff), start, value) else KeepSince(rest, cutoff)
  }

  function Values<T>(samples: Samples<T>): seq<T> {
    match samples
    case Nothing => []
    case More(rest, _, value) => Values(rest) + [value]
  }

  /** The streaming statistics of the prices of one second. */
  function PushedAt(samples: Samples<real>, start: int): Stats {
    match samples
    case Nothing => EMPTY
    case More(rest, s, price) => if s == start then Push(PushedAt(rest, start), price) else PushedAt(rest, start)
  }

  /** The events of one second. */
  function CountedAt(samples: Samples<Events>, start: int, kind: Kind): nat {
    match samples
    case Nothing => 0
    case More(rest, s, events) => CountedAt(rest, start, kind) + if s == start then Of(events, kind) else 0
  }

  function WithPrice(samples: Samples<real>, at: int, mid: Option<real>): Samples<real> {
    if mid.Some? then More(samples, BucketStart(at), mid.value) else samples
  }

  predicate NoEvents(e: Events) {
    e.cancellations == 0 && e.executions == 0
  }

  function WithEvents(samples: Samples<Events>, at: int, events: Events): Samples<Events> {
    if NoEvents(events) then samples else More(samples, BucketStart(at), events)
  }

  /** The ticks seen so far. */
  datatype History = Begin | After(earlier: History, tick: Tick)

  /** The prices that survive pruning after every tick of a history, whatever its times. */
  function RetainedPrices(h: History, window: int): Samples<real> {
    match h
    case Begin => Nothing
    case After(earlier, t) => KeepSince(WithPrice(RetainedPrices(earlier, window), t.at, t.mid), t.at - window)
  }

  /** The events that survive pruning after every tick of a history, whatever its times. */
  function RetainedEvents(h: History, window: int): Samples<Events> {
    match h
    case Begin => Nothing
    case After(earlier, t) => KeepSince(WithEvents(RetainedEvents(earlier, window), t.at, t.events), t.at - window)
  }

  /** The mid prices of a history whose second starts at or after `cutoff`. */
  function WindowPrices(h: History, cutoff: int): seq<real> {
    match h
    case Begin => []
    case After(earlier, t) =>
      var prices := WindowPrices(earlier, cutoff);
      if t.mid.Some? && BucketStart(t.at) >= cutoff then prices + [t.mid.value] else prices
  }

  /** The top-of-book events of a kind in the seconds of a history that start at or after `cutoff`. */
  function WindowEvents(h: History, cutoff: int, kind: Kind): nat {
    match h
    case Begin => 0
    case After(earlier, t) =>
      WindowEvents(earlier, cutoff, kind) + if BucketStart(t.at) >= cutoff then Of(t.events, kind) else 0
  }

  /** Times never go back, and `at` is not before the last of them. */
  predicate OrderedUpTo(h: History, at: int) {
    h.After? ==> h.tick.at <= at && OrderedUpTo(h.earlier, h.tick.at)
  }

  // ---- samples ----

  /** Every sample belongs to one of `starts`. */
  predicate Covered<T>(samples: Samples<T>, starts: set<int>) {
    samples.More? ==> samples.start in starts && Covered(samples.rest, starts)
  }

  lemma {:induction false} CoveredGrows<T>(samples: Samples<T>, starts: set<int>, more: set<int>)
    requires Covered(samples, starts) && starts <= more
    ensures Covered(samples, more)
  {
    if samples.More? {
      CoveredGrows(samples.rest, starts, more);
    }
  }

  lemma {:induction false} CoveredSince<T>(samples: Samples<T>, starts: set<int>, cutoff: int, late: set<int>)
    requires Covered(samples, starts)
    requires forall s :: s in starts && s >= cutoff ==> s in late
    ensures Covered(KeepSince(samples, cutoff), late)
  {
    if samples.More? {
      CoveredSince(samples.rest, starts, cutoff, late);
    }
  }

  lemma {:induction false} KeepTwice<T>(samples: Samples<T>, early: int, late: int)
    requires early <= late
    ensures KeepSince(KeepSince(samples, early), late) == KeepSince(samples, late)
  {
    if samples.More? {
      KeepTwice(samples.rest, early, late);
    }
  }

  lemma {:induction false} PushedSince(samples: Samples<real>, cutoff: int, start: int)
    requires cutoff <= start
    ensures PushedAt(KeepSince(samples, cutoff), start) == PushedAt(samples, start)
  {
    if samples.More? {
      PushedSince(samples.rest, cutoff, start);
    }
  }

  lemma {:induction false} CountedSince(samples: Samples<Events>, cutoff: int, start: int, kind: Kind)
    requires cutoff <= start
    ensures CountedAt(KeepSince(samples, cutoff), start, kind) == CountedAt(samples, start, kind)
  {
    if samples.More? {
      CountedSince(samples.rest, cutoff, start, kind);
    }
  }

  lemma {:induction false} NothingPushed(samples: Samples<real>, starts: set<int>, start: int)
    requires Covered(samples, starts) && start !in starts
    ensures PushedAt(samples, start) == EMPTY
  {
    if samples.More? {
      NothingPushed(samples.rest, starts, start);
    }
  }

  lemma {:induction false} NothingCounted(samples: Samples<Events>, starts: set<int>, start: int, kind: Kind)
    requires Covered(samples, starts) && start !in starts
    ensures CountedAt(samples, start, kind) == 0
  {
    if samples.More? {
      NothingCounted(samples.rest, starts, start, kind);
    }
  }

  // ---- buckets ----

  function Starts<T>(buckets: seq<Bucket<T>>): set<int> {
    if buckets == [] then {} else Starts(buckets[..|buckets| - 1]) + {buckets[|buckets| - 1].start}
  }

  predicate DistinctStarts<T>(buckets: seq<Bucket<T>>) {
    buckets != [] ==>
      && buckets[|buckets| - 1].start !in Starts(buckets[..|buckets| - 1])
      && DistinctStarts(buckets[..|buckets| - 1])
  }

  /** One bucket per second, no sample without a bucket, and each has seen its second's prices in order. */
  ghost predicate PricesFiled(buckets: seq<Bucket<Stats>>, samples: Samples<real>) {
    && DistinctStarts(buckets) && Covered(samples, Starts(buckets))
    && forall b :: b in buckets ==> b.value == PushedAt(samples, b.start)
  }

  /** One bucket per second, no sample without a bucket, and each counts its second's events. */
  ghost predicate EventsFiled(buckets: seq<Bucket<Events>>, samples: Samples<Events>) {
    && DistinctStarts(buckets) && Covered(samples, Starts(buckets))
    && forall b, kind :: b in buckets ==> Of(b.value, kind) == CountedAt(samples, b.start, kind)
  }

  lemma {:induction false} StartsHas<T>(buckets: seq<Bucket<T>>, i: nat)
    requires i < |buckets|
    ensures buckets[i].start in Starts(buckets)
  {
    if i < |buckets| - 1 {
      StartsHas(buckets[..|buckets| - 1], i);
    }
  }

  lemma {:induction false} AbsentStart<T>(buckets: seq<Bucket<T>>, start: int)
    requires forall i :: 0 <= i < |buckets| ==> buckets[i].start != start
    ensures start !in Starts(buckets)
  {
    if buckets != [] {
      AbsentStart(buckets[..|buckets| - 1], start);
    }
  }

  lemma {:induction false} StartsDiffer<T>(buckets: seq<Bucket<T>>, i: nat, j: nat)
    requires DistinctStarts(buckets) && i < j < |buckets|
    ensures buckets[i].start != buckets[j].start
  {
    var front := buckets[..|buckets| - 1];
    if j < |buckets| - 1 {
      StartsDiffer(front, i, j);
    } else {
      StartsHas(front, i);
    }
  }

  /** A bucket replaced by one of the same second. */
  lemma {:induction false} StartsUpdate<T>(buckets: seq<Bucket<T>>, k: nat, b: Bucket<T>)
    requires k < |buckets| && buckets[k].start == b.start
    ensures Starts(buckets[k := b]) == Starts(buckets)
    ensures DistinctStarts(buckets) ==> DistinctStarts(buckets[k := b])
  {
    var front := buckets[..|buckets| - 1];
    if k < |buckets| - 1 {
      StartsUpdate(front, k, b);
      assert buckets[k := b][..|buckets| - 1] == front[k := b];
    } else {
      assert buckets[k := b][..|buckets| - 1] == front;
    }
  }

  /** Putting the bucket of a second keeps one bucket per second and leaves the other buckets alone. */
  lemma PutKeeps<T>(buckets: seq<Bucket<T>>, k: nat, b: Bucket<T>)
    requires DistinctStarts(buckets) && IsPlace(buckets, b.start, k)
    ensures DistinctStarts(Put(buckets, k, b))
    ensures Starts(Put(buckets, k, b)) == Starts(buckets) + {b.start}
    ensures forall b' :: b' in Put(buckets, k, b) ==> b' == b || (b' in buckets && b'.start != b.start)
  {
    var after := Put(buckets, k, b);
    if k < |buckets| {
      StartsUpdate(buckets, k, b);
      StartsHas(buckets, k);
      forall i | k < i < |buckets| ensures buckets[i].start != b.start {
        StartsDiffer(buckets, k, i);
      }
    } else {
      AbsentStart(buckets, b.start);
      assert after[..|buckets|] == buckets;
    }
    forall i | 0 <= i < |after| && i != k ensures after[i] in buckets && after[i].start != b.start {
      assert after[i] == buckets[i];
    }
  }

  lemma {:induction false} SinceMember<T>(buckets: seq<Bucket<T>>, cutoff: int, b: Bucket<T>)
    ensures b in Since(buckets, cutoff) <==> b in buckets && b.start >= cutoff
  {
    if buckets != [] {
      SinceMember(buckets[..|buckets| - 1], cutoff, b);
      assert buckets == buckets[..|buckets| - 1] + [buckets[|buckets| - 1]];
    }
  }

  lemma {:induction false} StartsSince<T>(buckets: seq<Bucket<T>>, cutoff: int)
    requires DistinctStarts(buckets)
    ensures DistinctStarts(Since(buckets, cutoff))
    ensures forall start :: start in Starts(Since(buckets, cutoff)) <==> start in Starts(buckets) && start >= cutoff
  {
    if buckets != [] {
      var front, last := buckets[..|buckets| - 1], buckets[|buckets| - 1];
      StartsSince(front, cutoff);
      assert (Since(front, cutoff) + [last])[..|Since(front, cutoff)|] == Since(front, cutoff);
    }
  }

  // ---- filing and pruning ----

  lemma PriceFilingKeeps(buckets: seq<Bucket<Stats>>, samples: Samples<real>, k: nat, start: int, price: real)
    requires PricesFiled(buckets, samples) && IsPlace(buckets, start, k)
    ensures var stats := if k < |buckets| then buckets[k].value else EMPTY;
      PricesFiled(Put(buckets, k, Bucket(start, Push(stats, price))), More(samples, start, price))
  {
    var stats := if k < |buckets| then buckets[k].value else EMPTY;
    var b, more := Bucket(start, Push(stats, price)), More(samples, start, price);
    PutKeeps(buckets, k, b);
    CoveredGrows(samples, Starts(buckets), Starts(buckets) + {start});
    if k == |buckets| {
      AbsentStart(buckets, start);
      NothingPushed(samples, Starts(buckets), start);
    } else {
      assert buckets[k] in buckets;
    }
  }

  lemma EventFilingKeeps(buckets: seq<Bucket<Events>>, samples: Samples<Events>, k: nat, start: int, events: Events,
                         v: Events)
    requires EventsFiled(buckets, samples) && IsPlace(buckets, start, k)
    requires forall kind :: Of(v, kind) == (if k < |buckets| then Of(buckets[k].value, kind) else 0) + Of(events, kind)
    ensures EventsFiled(Put(buckets, k, Bucket(start, v)), More(samples, start, events))
  {
    PutKeeps(buckets, k, Bucket(start, v));
    CoveredGrows(samples, Starts(buckets), Starts(buckets) + {start});
    forall kind ensures Of(v, kind) == CountedAt(More(samples, start, events), start, kind) {
      if k == |buckets| {
        AbsentStart(buckets, start);
        NothingCounted(samples, Starts(buckets), start, kind);
      } else {
        assert buckets[k] in buckets;
      }
    }
  }

  /** Pruning buckets prunes exactly the prices they hold. */
  lemma PricePruningKeeps(buckets: seq<Bucket<Stats>>, samples: Samples<real>, cutoff: int)
    requires PricesFiled(buckets, samples)
    ensures PricesFiled(Since(buckets, cutoff), KeepSince(samples, cutoff))
  {
    StartsSince(buckets, cutoff);
    CoveredSince(samples, Starts(buckets), cutoff, Starts(Since(buckets, cutoff)));
    forall b | b in Since(buckets, cutoff) ensures b.value == PushedAt(KeepSince(samples, cutoff), b.start) {
      SinceMember(buckets, cutoff, b);
      PushedSince(samples, cutoff, b.start);
    }
  }

  /** Pruning buckets prunes exactly the events they hold. */
  lemma EventPruningKeeps(buckets: seq<Bucket<Events>>, samples: Samples<Events>, cutoff: int)
    requires EventsFiled(buckets, samples)
    ensures EventsFiled(Since(buckets, cutoff), KeepSince(samples, cutoff))
  {
    StartsSince(buckets, cutoff);
    CoveredSince(samples, Starts(buckets), cutoff, Starts(Since(buckets, cutoff)));
    forall b, kind | b in Since(buckets, cutoff)
      ensures Of(b.value, kind) == CountedAt(KeepSince(samples, cutoff), b.start, kind)
    {
      SinceMember(buckets, cutoff, b);
      CountedSince(samples, cutoff, b.start, kind);
    }
  }

  // ---- merging buckets ----

  /** How many prices are filed under one of `starts`. */
  function CountIn(samples: Samples<real>, starts: set<int>): nat {
    match samples
    case Nothing => 0
    case More(rest, start, _) => CountIn(rest, starts) + if start in starts then 1 else 0
  }

  /** Their squared deviations from `c`, added up. */
  function SpreadIn(samples: Samples<real>, starts: set<int>, c: real): real {
    match samples
    case Nothing => 0.0
    case More(rest, start, price) => SpreadIn(rest, starts, c) + if start in starts then Square(price - c) else 0.0
  }

  /** The events of a kind filed under one of `starts`. */
  function CountedAmong(samples: Samples<Events>, starts: set<int>, kind: Kind): nat {
    match samples
    case Nothing => 0
    case More(rest, start, events) =>
      CountedAmong(rest, starts, kind) + if start in starts then Of(events, kind) else 0
  }

  lemma {:induction false} PushedCounts(samples: Samples<real>, start: int)
    ensures PushedAt(samples, start).count == CountIn(samples, {start})
    ensures EmptyIfNone(PushedAt(samples, start))
  {
    if samples.More? {
      PushedCounts(samples.rest, start);
    }
  }

  lemma {:induction false} PushedAbout(samples: Samples<real>, start: int, c: real)
    ensures About(PushedAt(samples, start), c) == SpreadIn(samples, {start}, c)
  {
    if samples.More? {
      PushedAbout(samples.rest, start, c);
      PushAbout(PushedAt(samples.rest, start), samples.value, c);
    }
  }

  lemma {:induction false} SpreadSplits(samples: Samples<real>, starts: set<int>, start: int, c: real)
    requires start !in starts
    ensures CountIn(samples, starts + {start}) == CountIn(samples, starts) + CountIn(samples, {start})
    ensures SpreadIn(samples, starts + {start}, c) == SpreadIn(samples, starts, c) + SpreadIn(samples, {start}, c)
  {
    if samples.More? {
      SpreadSplits(samples.rest, starts, start, c);
    }
  }

  lemma {:induction false} SpreadNone(samples: Samples<real>, c: real)
    ensures CountIn(samples, {}) == 0 && SpreadIn(samples, {}, c) == 0.0
  {
    if samples.More? {
      SpreadNone(samples.rest, c);
    }
  }

  lemma {:induction false} SpreadAll(samples: Samples<real>, starts: set<int>, c: real)
    requires Covered(samples, starts)
    ensures CountIn(samples, starts) == |Values(samples)|
    ensures SpreadIn(samples, starts, c) == Deviation(Values(samples), c)
  {
    if samples.More? {
      SpreadAll(samples.rest, starts, c);
      var xs := Values(samples.rest);
      assert (xs + [samples.value])[..|xs|] == xs;
    }
  }

  /** The merge of all buckets counts and spreads as all prices filed in them do. */
  lemma {:induction false} MergeAboutAll(buckets: seq<Bucket<Stats>>, samples: Samples<real>, c: real)
    requires DistinctStarts(buckets)
    requires forall b :: b in buckets ==> b.value == PushedAt(samples, b.start)
    ensures MergeAll(buckets).count == CountIn(samples, Starts(buckets)) && EmptyIfNone(MergeAll(buckets))
    ensures About(MergeAll(buckets), c) == SpreadIn(samples, Starts(buckets), c)
  {
    if buckets == [] {
      SpreadNone(samples, c);
    } else {
      var front, last := buckets[..|buckets| - 1], buckets[|buckets| - 1];
      MergeAboutAll(front, samples, c);
      SpreadSplits(samples, Starts(front), last.start, c);
      PushedCounts(samples, last.start);
      PushedAbout(samples, last.start, c);
      MergeAbout(MergeAll(front), last.value, c);
    }
  }

  lemma {:induction false} CountedSplits(samples: Samples<Events>, starts: set<int>, start: int, kind: Kind)
    requires start !in starts
    ensures CountedAmong(samples, starts + {start}, kind)
            == CountedAmong(samples, starts, kind) + CountedAt(samples, start, kind)
  {
    if samples.More? {
      CountedSplits(samples.rest, starts, start, kind);
    }
  }

  lemma {:induction false} CountedNone(samples: Samples<Events>, kind: Kind)
    ensures CountedAmong(samples, {}, kind) == 0
  {
    if samples.More? {
      CountedNone(samples.rest, kind);
    }
  }

  lemma {:induction false} TotalCountsAll(buckets: seq<Bucket<Events>>, samples: Samples<Events>, kind: Kind)
    requires DistinctStarts(buckets)
    requires forall b :: b in buckets ==> Of(b.value, kind) == CountedAt(samples, b.start, kind)
    ensures TotalEvents(buckets, kind) == CountedAmong(samples, Starts(buckets), kind)
  {
    if buckets == [] {
      CountedNone(samples, kind);
    } else {
      var front, last := buckets[..|buckets| - 1], buckets[|buckets| - 1];
      TotalCountsAll(front, samples, kind);
      CountedSplits(samples, Starts(front), last.start, kind);
    }
  }

  /** All events of a kind. */
  function Counted(samples: Samples<Events>, kind: Kind): nat {
    match samples
    case Nothing => 0
    case More(rest, _, events) => Counted(rest, kind) + Of(events, kind)
  }

  lemma {:induction false} CountedAll(samples: Samples<Events>, starts: set<int>, kind: Kind)
    requires Covered(samples, starts)
    ensures CountedAmong(samples, starts, kind) == Counted(samples, kind)
  {
    if samples.More? {
      CountedAll(samples.rest, starts, kind);
    }
  }

  // ---- what the detector reads ----

  lemma OrderedRelaxes(h: History, at: int, later: int)
    requires OrderedUpTo(h, at) && at <= later
    ensures OrderedUpTo(h, later)
  {
  }

  /** With ordered times, pruning never dropped a price that the window still needs. */
  lemma {:induction false} PruningKeepsWindowPrices(h: History, window: int, at: int)
    requires OrderedUpTo(h, at)
    ensures Values(KeepSince(RetainedPrices(h, window), at - window)) == WindowPrices(h, at - window)
  {
    if h.After? {
      OrderedRelaxes(h.earlier, h.tick.at, at);
      PruningKeepsWindowPrices(h.earlier, window, at);
      KeepTwice(WithPrice(RetainedPrices(h.earlier, window), h.tick.at, h.tick.mid), h.tick.at - window, at - window);
    }
  }

  /** With ordered times, pruning never dropped an event that the window still needs. */
  lemma {:induction false} PruningKeepsWindowEvents(h: History, window: int, at: int, kind: Kind)
    requires OrderedUpTo(h, at)
    ensures Counted(KeepSince(RetainedEvents(h, window), at - window), kind) == WindowEvents(h, at - window, kind)
  {
    if h.After? {
      OrderedRelaxes(h.earlier, h.tick.at, at);
      PruningKeepsWindowEvents(h.earlier, window, at, kind);
      var samples := WithEvents(RetainedEvents(h.earlier, window), h.tick.at, h.tick.events);
      KeepTwice(samples, h.tick.at - window, at - window);
    }
  }

  /** The merged buckets hold the plain statistics of every earlier mid price in the window. */
  lemma MergedStatsAreWindowStats(buckets: seq<Bucket<Stats>>, h: History, window: int, at: int)
    requires PricesFiled(buckets, RetainedPrices(h, window))
    requires OrderedUpTo(h, at)
    ensures MergeStatsBuckets(buckets, at - window) == Batch(WindowPrices(h, at - window))
  {
    var kept := RetainedPrices(h, window);
    var inside, live := Since(buckets, at - window), KeepSince(kept, at - window);
    PricePruningKeeps(buckets, kept, at - window);
    PruningKeepsWindowPrices(h, window, at);
    MergeAboutAll(inside, live, 0.0);
    SpreadAll(live, Starts(inside), 0.0);
    forall c ensures About(MergeAll(inside), c) == Deviation(Values(live), c) {
      MergeAboutAll(inside, live, c);
      SpreadAll(live, Starts(inside), c);
    }
    AboutDeterminesStats(MergeAll(inside), Values(live));
  }

  /** After pruning, the bucket totals are the exact event counts of the window that ends now. */
  lemma TotalsAreWindowTotals(buckets: seq<Bucket<Events>>, h: History, window: int, kind: Kind)
    requires h.After? && EventsFiled(buckets, RetainedEvents(h, window))
    requires OrderedUpTo(h, h.tick.at)
    ensures TotalEvents(buckets, kind) == WindowEvents(h, h.tick.at - window, kind)
  {
    var cutoff, kept := h.tick.at - window, RetainedEvents(h, window);
    TotalCountsAll(buckets, kept, kind);
    CountedAll(kept, Starts(buckets), kind);
    KeepTwice(WithEvents(RetainedEvents(h.earlier, window), h.tick.at, h.tick.events), cutoff, cutoff);
    PruningKeepsWindowEvents(h, window, h.tick.at, kind);
  }

  datatype Reading = Reading(priceStatsBefore: Stats, totals: Events)

  class Detector {
    const priceWindowMs: nat
    const topOfBookWindowMs: nat
    var priceBuckets: seq<Bucket<Stats>>
    var topOfBookBuckets: seq<Bucket<Events>>
    ghost var history: History

    ghost predicate Valid()
      reads this
    {
      && PricesFiled(priceBuckets, RetainedPrices(history, priceWindowMs))
      && EventsFiled(topOfBookBuckets, RetainedEvents(history, topOfBookWindowMs))
    }

    constructor (priceWindowMs: nat, topOfBookWindowMs: nat)
      ensures Valid() && history == Begin
      ensures this.priceWindowMs == priceWindowMs && this.topOfBookWindowMs == topOfBookWindowMs
    {
      this.priceWindowMs := priceWindowMs;
      this.topOfBookWindowMs := topOfBookWindowMs;
      priceBuckets, topOfBookBuckets, history := [], [], Begin;
    }

    method RecordMidPrice(mid: Option<real>, observedMs: int, ghost samples: Samples<real>)
      requires PricesFiled(priceBuckets, samples)
      modifies this`priceBuckets
      ensures PricesFiled(priceBuckets, WithPrice(samples, observedMs, mid))
    {
      if mid.None? {
        return;
      }
      var start := BucketStart(observedMs);
      var k := FindBucket(priceBuckets, start);
      PriceFilingKeeps(priceBuckets, samples, k, start, mid.value);
      var stats := if k < |priceBuckets| then priceBuckets[k].value else EMPTY;
      priceBuckets := Put(priceBuckets, k, Bucket(start, Push(stats, mid.value)));
    }

    method RecordTopOfBookEvents(events: Events, observedMs: int, ghost samples: Samples<Events>)
      requires EventsFiled(topOfBookBuckets, samples)
      modifies this`topOfBookBuckets
      ensures EventsFiled(topOfBookBuckets, WithEvents(samples, observedMs, events))
    {
      if NoEvents(events) {
        return;
      }
      var start := BucketStart(observedMs);
      var k := FindBucket(topOfBookBuckets, start);
      var counts := events;
      if k < |topOfBookBuckets| {
        var b := topOfBookBuckets[k].value;
        counts := Events(b.cancellations + events.cancellations, b.executions + events.executions);
      }
      EventFilingKeeps(topOfBookBuckets, samples, k, start, events, counts);
      topOfBookBuckets := Put(topOfBookBuckets, k, Bucket(start, counts));
    }

    /** Drops the buckets that fell behind their windows, with the samples they hold. */
    method Prune(observedMs: int, ghost prices: Samples<real>, ghost events: Samples<Events>)
      requires PricesFiled(priceBuckets, prices) && EventsFiled(topOfBookBuckets, events)
      modifies this`priceBuckets, this`topOfBookBuckets
      ensures PricesFiled(priceBuckets, KeepSince(prices, observedMs - priceWindowMs))
      ensures EventsFiled(topOfBookBuckets, KeepSince(events, observedMs - topOfBookWindowMs))
    {
      PricePruningKeeps(priceBuckets, prices, observedMs - priceWindowMs);
      EventPruningKeeps(topOfBookBuckets, events, observedMs - topOfBookWindowMs);
      priceBuckets := Since(priceBuckets, observedMs - priceWindowMs);
      topOfBookBuckets := Since(topOfBookBuckets, observedMs - topOfBookWindowMs);
    }

    /** Records one observation in its buckets and prunes. */
    method Record(at: int, mid: Option<real>, events: Events)
      requires Valid()
      modifies this
      ensures Valid() && history == After(old(history), Tick(at, mid, events))
    {
      ghost var prices := RetainedPrices(history, priceWindowMs);
      ghost var counts := RetainedEvents(history, topOfBookWindowMs);
      RecordMidPrice(mid, at, prices);
      RecordTopOfBookEvents(events, at, counts);
      Prune(at, WithPrice(prices, at, mid), WithEvents(counts, at, events));
      history := After(history, Tick(at, mid, events));
    }

    /** One observation. A time that does not parse is refused and changes nothing. */
    method Evaluate(observedMs: Option<int>, mid: Option<real>, events: Events) returns (r: Option<Reading>)
      requires Valid()
      modifies this
      ensures Valid()
      ensures r.Some? <==> observedMs.Some?
      ensures r.None? ==> history == old(history)
      ensures r.None? ==> priceBuckets == old(priceBuckets) && topOfBookBuckets == old(topOfBookBuckets)
      ensures r.Some? ==> history == After(old(history), Tick(observedMs.value, mid, events))
      ensures r.Some? && OrderedUpTo(old(history), observedMs.value) ==>
        && r.value.priceStatsBefore == Batch(WindowPrices(old(history), observedMs.value - priceWindowMs))
        && forall kind :: Of(r.value.totals, kind) == WindowEvents(history, observedMs.value - topOfBookWindowMs, kind)
    {
      if observedMs.None? {
        return Csv.None;
      }
      var at := observedMs.value;
      var stats := MergeStatsBuckets(priceBuckets, at - priceWindowMs);
      ghost var ordered := OrderedUpTo(history, at);
      if ordered {
        MergedStatsAreWindowStats(priceBuckets, history, priceWindowMs, at);
      }
      Record(at, mid, events);
      var totals := Events(TotalEvents(topOfBookBuckets, Cancellation), TotalEvents(topOfBookBuckets, Execution));
      if ordered {
        TotalsAreWindowTotals(topOfBookBuckets, history, topOfBookWindowMs, Cancellation);
        TotalsAreWindowTotals(topOfBookBuckets, history, topOfBookWindowMs, Execution);
      }
      return Csv.Some(Reading(stats, totals));
    }
  }
}
