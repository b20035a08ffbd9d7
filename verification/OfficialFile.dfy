/** Parsing a whole official export, line by line, into draws and quarantined lines. */
module OfficialFile {
  import opened Csv
  import opened Draws

  /** A configured export: every one of its draws has this game and this session. */
  datatype Source = Source(id: SourceId, game: Game, session: Session, widths: set<nat>)

  /** Position in the configured source list. */
  type SourceId = nat

  /** What a row says, before the check that its date is not in the future. */
  datatype Reading = Reading(day: Day, content: Content)

  /** The rules of each game: column meanings, number ranges, launch dates. They do not
      depend on the current day. */
  type Reader = seq<string> -> Option<Reading>

  datatype ParsedDraw = ParsedDraw(key: Key, content: Content, fingerprint: string, line: nat)

  function MakeDraw(src: Source, r: Reading, line: nat): ParsedDraw {
    var key := KeyOf(src, r.day);
    ParsedDraw(key, r.content, Fingerprint(key, r.content), line)
  }

  function RowReading(raw: string, src: Source, read: Reader): Option<Reading> {
    match Fields(raw)
    case None => None
    case Some(row) => if |row| in src.widths then read(row) else None
  }

  function KeyOf(src: Source, day: Day): Key {
    Key(src.game, day, src.session)
  }

  function RowDraw(raw: string, line: nat, src: Source, read: Reader, today: nat): Option<ParsedDraw> {
    match RowReading(raw, src, read)
    case None => None
    case Some(r) => if r.day > today then None else Some(MakeDraw(src, r, line))
  }

  /** The draw of a readable line. */
  function DrawOf(raw: string, line: nat, src: Source, read: Reader): ParsedDraw
    requires RowReading(raw, src, read).Some?
  {
    MakeDraw(src, RowReading(raw, src, read).value, line)
  }

  /** The draws by key; were a key to repeat, the last would count. */
  function ByKey(draws: seq<ParsedDraw>): map<Key, ParsedDraw> {
    if draws == [] then map[] else ByKey(draws[..|draws| - 1])[draws[|draws| - 1].key := draws[|draws| - 1]]
  }

  function Keys(draws: seq<ParsedDraw>): set<Key> {
    ByKey(draws).Keys
  }

  lemma {:induction false} ByKeyMembers(draws: seq<ParsedDraw>)
    ensures forall k :: k in ByKey(draws) ==> ByKey(draws)[k] in draws && ByKey(draws)[k].key == k
  {
    if draws != [] {
      ByKeyMembers(draws[..|draws| - 1]);
    }
  }

  /** No key occurs twice. */
  predicate DistinctKeys(draws: seq<ParsedDraw>) {
    draws == [] ||
    (DistinctKeys(draws[..|draws| - 1]) && draws[|draws| - 1].key !in Keys(draws[..|draws| - 1]))
  }

  predicate KeysOf(draws: seq<ParsedDraw>, src: Source) {
    forall d :: d in draws ==> d.key == KeyOf(src, d.key.day)
  }

  /** Draws kept, line numbers quarantined, and line numbers of all non-blank lines. */
  datatype Scan = Scan(draws: seq<ParsedDraw>, issues: seq<nat>, records: seq<nat>)

  function AddLine(s: Scan, raw: string, line: nat, src: Source, read: Reader, today: nat): Scan {
    if Blank(raw) then s
    else
      var t := s.(records := s.records + [line]);
      match RowDraw(raw, line, src, read, today)
      case None => t.(issues := s.issues + [line])
      case Some(d) =>
        if d.key in Keys(s.draws) then t.(issues := s.issues + [line]) else t.(draws := s.draws + [d])
  }

  function ScanLines(lines: seq<string>, src: Source, read: Reader, today: nat): Scan {
    if lines == [] then Scan([], [], [])
    else
      var n := |lines|;
      AddLine(ScanLines(lines[..n - 1], src, read, today), lines[n - 1], n, src, read, today)
  }

  /** Kept draws have distinct keys, carry the source's game and session, and are not in the future. */
  lemma {:induction false} ScanShape(lines: seq<string>, src: Source, read: Reader, today: nat)
    ensures var s := ScanLines(lines, src, read, today);
      && DistinctKeys(s.draws) && KeysOf(s.draws, src)
      && (forall d :: d in s.draws ==> d.key.day <= today)
  {
    if lines != [] {
      ScanShape(lines[..|lines| - 1], src, read, today);
      var before := ScanLines(lines[..|lines| - 1], src, read, today).draws;
      var after := ScanLines(lines, src, read, today).draws;
      assert |after| > |before| ==> after[..|after| - 1] == before;
    }
  }

  /** The layout-drift checks: an export is refused when it is empty, keeps no draw, ends in
      two bad lines, or has at least two bad lines making up more than a fifth of it. */
  predicate Acceptable(s: Scan) {
    var n := |s.records|;
    && n > 0
    && |s.draws| > 0
    && !(n >= 2 && s.records[n - 1] in s.issues && s.records[n - 2] in s.issues)
    && !(|s.issues| >= 2 && 5 * |s.issues| > n)
  }

  function ParseFile(lines: seq<string>, src: Source, read: Reader, today: nat): Option<Scan> {
    var s := ScanLines(lines, src, read, today);
    if Acceptable(s) then Some(s) else None
  }

  /** None is a quarantined line: malformed, of the wrong width, unreadable or in the future. */
  method ParseRow(raw: string, line: nat, src: Source, read: Reader, today: nat) returns (r: Option<ParsedDraw>)
    ensures r == RowDraw(raw, line, src, read, today)
    ensures r.Some? <==> exists d :: SaysDraw(raw, src, read, d) && d.key.day <= today
    ensures r.Some? ==> SaysDraw(raw, src, read, r.value) && r.value.line == line
  {
    var row := CsvLine(raw);
    if row.None? || |row.value| !in src.widths {
      return None;
    }
    var reading := read(row.value);
    r := if reading.Some? && reading.value.day <= today then Some(MakeDraw(src, reading.value, line)) else None;
  }

  method ParseOfficialCsv(lines: seq<string>, src: Source, read: Reader, today: nat)
    returns (r: Option<Scan>)
    ensures r == ParseFile(lines, src, read, today)
    ensures r.Some? <==> FileAccepted(lines, src, read, today)
  {
    var draws: seq<ParsedDraw> := [];
    var issues: seq<nat> := [];
    var recordLines: seq<nat> := [];
    var identities: set<Key> := {};
    for index := 0 to |lines|
      invariant Scan(draws, issues, recordLines) == ScanLines(lines[..index], src, read, today)
      invariant identities == Keys(draws)
    {
      assert lines[..index + 1][..index] == lines[..index];
      var rawRecord := lines[index];
      if Blank(rawRecord) {
        continue;
      }
      var sourceLine := index + 1;
      recordLines := recordLines + [sourceLine];
      var parsed := ParseRow(rawRecord, sourceLine, src, read, today);
      if parsed.Some? && parsed.value.key !in identities {
        identities := identities + {parsed.value.key};
        KeysAppend(draws, parsed.value);
        draws := draws + [parsed.value];
      } else {
        issues := issues + [sourceLine];
      }
    }
    assert lines[..|lines|] == lines;
    var s := Scan(draws, issues, recordLines);
    r := if Acceptable(s) then Some(s) else None;
    FileAcceptedExactly(lines, src, read, today);
  }

  lemma KeysAppend(draws: seq<ParsedDraw>, d: ParsedDraw)
    ensures Keys(draws + [d]) == Keys(draws) + {d.key}
  {
    assert (draws + [d])[..|draws|] == draws;
  }

  /** The line numbers of the kept draws. */
  function DrawLines(draws: seq<ParsedDraw>): seq<nat> {
    seq(|draws|, i requires 0 <= i < |draws| => draws[i].line)
  }

  /** The numbers of the non-blank lines, in file order. */
  function NonBlankLines(lines: seq<string>): (ns: seq<nat>)
    ensures forall i, j :: 0 <= i < j < |ns| ==> ns[i] < ns[j]
    ensures forall i :: 0 <= i < |ns| ==> 1 <= ns[i] <= |lines|
    ensures forall n :: n in ns <==> 1 <= n <= |lines| && !Blank(lines[n - 1])
  {
    if lines == [] then []
    else
      var n := |lines|;
      var before := NonBlankLines(lines[..n - 1]);
      if Blank(lines[n - 1]) then before else before + [n]
  }

  /** Every non-blank line is accounted for exactly once, as a draw or as a quarantined line. */
  lemma {:induction false} EachLineAccountedOnce(lines: seq<string>, src: Source, read: Reader, today: nat)
    ensures var s := ScanLines(lines, src, read, today);
      && s.records == NonBlankLines(lines)
      && multiset(s.issues) + multiset(DrawLines(s.draws)) == multiset(s.records)
  {
    if lines != [] {
      var n := |lines|;
      EachLineAccountedOnce(lines[..n - 1], src, read, today);
      var p := ScanLines(lines[..n - 1], src, read, today);
      LineJoinsOnePart(p, lines[n - 1], n, src, read, today);
    }
  }

  lemma LineJoinsOnePart(p: Scan, raw: string, n: nat, src: Source, read: Reader, today: nat)
    requires multiset(p.issues) + multiset(DrawLines(p.draws)) == multiset(p.records)
    ensures var s := AddLine(p, raw, n, src, read, today);
      multiset(s.issues) + multiset(DrawLines(s.draws)) == multiset(s.records)
  {
    var s := AddLine(p, raw, n, src, read, today);
    assert s.draws == p.draws || DrawLines(s.draws) == DrawLines(p.draws) + [n];
  }

  /** The line splits into a permitted number of fields, which the reader reads as this draw. */
  predicate SaysDraw(raw: string, src: Source, read: Reader, d: ParsedDraw) {
    && Fields(raw).Some? && |Fields(raw).value| in src.widths
    && read(Fields(raw).value) == Some(Reading(d.key.day, d.content))
    && d.key == Key(src.game, d.key.day, src.session) && d.fingerprint == Fingerprint(d.key, d.content)
  }

  /** Each kept draw is what its own line reads as. */
  lemma {:induction false} DrawIsItsLine(lines: seq<string>, src: Source, read: Reader, today: nat, i: nat)
    requires i < |ScanLines(lines, src, read, today).draws|
    ensures var d := ScanLines(lines, src, read, today).draws[i];
      && 1 <= d.line <= |lines| && !Blank(lines[d.line - 1])
      && SaysDraw(lines[d.line - 1], src, read, d) && d.key.day <= today
  {
    var p := ScanLines(lines[..|lines| - 1], src, read, today);
    var s := AddLine(p, lines[|lines| - 1], |lines|, src, read, today);
    assert p.draws <= s.draws;
    if i < |p.draws| {
      DrawIsItsLine(lines[..|lines| - 1], src, read, today, i);
      assert s.draws[i] == p.draws[i];
    }
  }

  // ---- which lines become draws ----

  /** The line reads as a draw whose day has come. */
  predicate Reads(raw: string, src: Source, read: Reader, today: nat) {
    !Blank(raw) && RowReading(raw, src, read).Some? && RowReading(raw, src, read).value.day <= today
  }

  predicate ReadsOn(raw: string, src: Source, read: Reader, today: nat, day: Day) {
    Reads(raw, src, read, today) && RowReading(raw, src, read).value.day == day
  }

  /** Some line reads as the draw of this day. */
  predicate DayIsRead(lines: seq<string>, src: Source, read: Reader, today: nat, day: Day) {
    lines != [] &&
    (ReadsOn(lines[|lines| - 1], src, read, today, day) || DayIsRead(lines[..|lines| - 1], src, read, today, day))
  }

  /** The line reads as a draw whose day has come, and no line before it is of the same day. */
  predicate DrawLine(lines: seq<string>, i: nat, src: Source, read: Reader, today: nat)
    requires i < |lines|
  {
    && Reads(lines[i], src, read, today)
    && !DayIsRead(lines[..i], src, read, today, RowReading(lines[i], src, read).value.day)
  }

  /** A key is taken exactly when a line of its day was read. */
  lemma {:induction false} KeyIsTaken(lines: seq<string>, src: Source, read: Reader, today: nat, day: Day)
    ensures KeyOf(src, day) in Keys(ScanLines(lines, src, read, today).draws) <==>
      DayIsRead(lines, src, read, today, day)
  {
    if lines != [] {
      var n := |lines|;
      KeyIsTaken(lines[..n - 1], src, read, today, day);
      LineTakesKey(ScanLines(lines[..n - 1], src, read, today), lines[n - 1], n, src, read, today, day);
    }
  }

  lemma LineTakesKey(p: Scan, raw: string, n: nat, src: Source, read: Reader, today: nat, day: Day)
    ensures KeyOf(src, day) in Keys(AddLine(p, raw, n, src, read, today).draws) <==>
      KeyOf(src, day) in Keys(p.draws) || ReadsOn(raw, src, read, today, day)
  {
    if Reads(raw, src, read, today) {
      KeysAppend(p.draws, DrawOf(raw, n, src, read));
    }
  }

  lemma LastLine(lines: seq<string>, src: Source, read: Reader, today: nat)
    requires lines != []
    ensures var n := |lines|;
      var p, s := ScanLines(lines[..n - 1], src, read, today), ScanLines(lines, src, read, today);
      if DrawLine(lines, n - 1, src, read, today)
      then s.draws == p.draws + [DrawOf(lines[n - 1], n, src, read)] && s.issues == p.issues
      else s.draws == p.draws && s.issues == if Blank(lines[n - 1]) then p.issues else p.issues + [n]
  {
    var n := |lines|;
    if Reads(lines[n - 1], src, read, today) {
      KeyIsTaken(lines[..n - 1], src, read, today, RowReading(lines[n - 1], src, read).value.day);
    }
  }

  lemma EarlierLine(lines: seq<string>, i: nat, src: Source, read: Reader, today: nat)
    requires i < |lines| - 1
    ensures DrawLine(lines[..|lines| - 1], i, src, read, today) <==> DrawLine(lines, i, src, read, today)
  {
    assert lines[..|lines| - 1][..i] == lines[..i];
  }

  /** The line is kept as a draw exactly when it is the first readable one of its day, and is
      quarantined exactly when it is neither that nor blank. */
  predicate KeptExactly(s: Scan, lines: seq<string>, src: Source, read: Reader, today: nat, i: nat)
    requires i < |lines|
  {
    && (i + 1 in DrawLines(s.draws) <==> DrawLine(lines, i, src, read, today))
    && (i + 1 in s.issues <==> !Blank(lines[i]) && !DrawLine(lines, i, src, read, today))
  }

  lemma LastLineIsKept(lines: seq<string>, src: Source, read: Reader, today: nat)
    requires lines != []
    ensures KeptExactly(ScanLines(lines, src, read, today), lines, src, read, today, |lines| - 1)
  {
    LastLine(lines, src, read, today);
    LinesAreBelow(lines[..|lines| - 1], src, read, today);
    LastDrawLine(lines, src, read, today);
  }

  lemma LastDrawLine(lines: seq<string>, src: Source, read: Reader, today: nat)
    requires lines != []
    ensures var p, s := ScanLines(lines[..|lines| - 1], src, read, today), ScanLines(lines, src, read, today);
      DrawLines(s.draws)
      == DrawLines(p.draws) + (if DrawLine(lines, |lines| - 1, src, read, today) then [|lines|] else [])
  {
    LastLine(lines, src, read, today);
  }

  /** Of the lines that read as draws whose day has come, exactly the first of each day is kept;
      every other line that is not blank is quarantined. */
  lemma {:induction false} LinesAreKeptExactly(lines: seq<string>, src: Source, read: Reader, today: nat, i: nat)
    requires i < |lines|
    ensures KeptExactly(ScanLines(lines, src, read, today), lines, src, read, today, i)
  {
    if i == |lines| - 1 {
      LastLineIsKept(lines, src, read, today);
    } else {
      LinesAreKeptExactly(lines[..|lines| - 1], src, read, today, i);
      EarlierLine(lines, i, src, read, today);
      LastLine(lines, src, read, today);
      LastDrawLine(lines, src, read, today);
    }
  }

  lemma LinesAreBelow(lines: seq<string>, src: Source, read: Reader, today: nat)
    ensures var s := ScanLines(lines, src, read, today);
      |lines| + 1 !in s.issues && |lines| + 1 !in DrawLines(s.draws)
  {
    EachLineAccountedOnce(lines, src, read, today);
    var s := ScanLines(lines, src, read, today);
    assert |lines| + 1 !in s.records;
    assert |lines| + 1 !in multiset(s.issues) + multiset(DrawLines(s.draws));
  }

  /** How many lines become draws. */
  function DrawCount(lines: seq<string>, src: Source, read: Reader, today: nat): nat {
    if lines == [] then 0
    else
      var n := |lines|;
      DrawCount(lines[..n - 1], src, read, today) + (if DrawLine(lines, n - 1, src, read, today) then 1 else 0)
  }

  lemma {:induction false} DrawsAreCounted(lines: seq<string>, src: Source, read: Reader, today: nat)
    ensures |ScanLines(lines, src, read, today).draws| == DrawCount(lines, src, read, today)
  {
    if lines != [] {
      DrawsAreCounted(lines[..|lines| - 1], src, read, today);
      LastLine(lines, src, read, today);
    }
  }

  lemma RecordsAreGoodOrBad(lines: seq<string>, src: Source, read: Reader, today: nat)
    ensures var s := ScanLines(lines, src, read, today);
      && s.records == NonBlankLines(lines)
      && |s.draws| == DrawCount(lines, src, read, today) && |s.issues| == |s.records| - |s.draws|
  {
    var s := ScanLines(lines, src, read, today);
    EachLineAccountedOnce(lines, src, read, today);
    assert |multiset(s.issues) + multiset(DrawLines(s.draws))| == |multiset(s.records)|;
    DrawsAreCounted(lines, src, read, today);
  }

  /** A record that does not become a draw. */
  predicate BadRecord(lines: seq<string>, k: int, src: Source, read: Reader, today: nat) {
    0 <= k < |NonBlankLines(lines)| && !DrawLine(lines, NonBlankLines(lines)[k] - 1, src, read, today)
  }

  lemma RecordIsBad(lines: seq<string>, src: Source, read: Reader, today: nat, k: nat)
    requires k < |NonBlankLines(lines)|
    ensures BadRecord(lines, k, src, read, today) <==>
      NonBlankLines(lines)[k] in ScanLines(lines, src, read, today).issues
  {
    assert NonBlankLines(lines)[k] in NonBlankLines(lines);
    LinesAreKeptExactly(lines, src, read, today, NonBlankLines(lines)[k] - 1);
  }

  /** Both of the last two records are bad. */
  predicate TailIsBad(lines: seq<string>, src: Source, read: Reader, today: nat) {
    var n := |NonBlankLines(lines)|;
    BadRecord(lines, n - 1, src, read, today) && BadRecord(lines, n - 2, src, read, today)
  }

  /** Accepted files: some line is a draw, not both of the last two records are bad, and there are
      fewer than two bad records or they are at most a fifth. */
  predicate FileAccepted(lines: seq<string>, src: Source, read: Reader, today: nat) {
    var all, good := |NonBlankLines(lines)|, DrawCount(lines, src, read, today);
    good > 0 && !TailIsBad(lines, src, read, today) && (all - good < 2 || 5 * (all - good) <= all)
  }

  lemma FileAcceptedExactly(lines: seq<string>, src: Source, read: Reader, today: nat)
    ensures ParseFile(lines, src, read, today).Some? <==> FileAccepted(lines, src, read, today)
  {
    RecordsAreGoodOrBad(lines, src, read, today);
    var n := |NonBlankLines(lines)|;
    if n >= 2 {
      RecordIsBad(lines, src, read, today, n - 1);
      RecordIsBad(lines, src, read, today, n - 2);
    }
  }

  // ---- the same file on another day ----

  /** No row of the file is dated after `d` but not after `later`. */
  predicate NoRowFallsDue(lines: seq<string>, src: Source, read: Reader, d: nat, later: nat) {
    forall i :: 0 <= i < |lines| && !Blank(lines[i]) ==>
      var r := RowReading(lines[i], src, read);
      r.None? || r.value.day <= d || later < r.value.day
  }

  lemma {:induction false} SameScanLater(lines: seq<string>, src: Source, read: Reader, d: nat, later: nat)
    requires d <= later && NoRowFallsDue(lines, src, read, d, later)
    ensures ScanLines(lines, src, read, later) == ScanLines(lines, src, read, d)
  {
    if lines != [] {
      var n := |lines|;
      assert forall i :: 0 <= i < n - 1 ==> lines[..n - 1][i] == lines[i];
      SameScanLater(lines[..n - 1], src, read, d, later);
      assert !Blank(lines[n - 1]) ==>
        RowDraw(lines[n - 1], n, src, read, later) == RowDraw(lines[n - 1], n, src, read, d);
    }
  }

  /** A row that reads as a draw is in the scan under its key once its day has come. */
  lemma {:induction false} DueRowIsKept(lines: seq<string>, i: nat, src: Source, read: Reader, today: nat)
    requires i < |lines| && !Blank(lines[i])
    requires RowReading(lines[i], src, read).Some? && RowReading(lines[i], src, read).value.day <= today
    ensures KeyOf(src, RowReading(lines[i], src, read).value.day) in Keys(ScanLines(lines, src, read, today).draws)
  {
    var n := |lines|;
    var p := ScanLines(lines[..n - 1], src, read, today);
    var s := ScanLines(lines, src, read, today);
    if |s.draws| > |p.draws| {
      KeysAppend(p.draws, s.draws[|p.draws|]);
    }
    if i < n - 1 {
      assert lines[..n - 1][i] == lines[i];
      DueRowIsKept(lines[..n - 1], i, src, read, today);
    }
  }

  /** A file that quarantines nothing is complete: no row of it can fall due later. */
  lemma {:induction false} CleanFileStaysClean(lines: seq<string>, src: Source, read: Reader, d: nat, later: nat)
    requires d <= later && ScanLines(lines, src, read, d).issues == []
    ensures NoRowFallsDue(lines, src, read, d, later)
  {
    if lines != [] {
      var n := |lines|;
      CleanFileStaysClean(lines[..n - 1], src, read, d, later);
      forall i | 0 <= i < n && !Blank(lines[i])
        ensures var r := RowReading(lines[i], src, read);
          r.None? || r.value.day <= d || later < r.value.day
      {
        if i < n - 1 {
          assert lines[..n - 1][i] == lines[i];
        }
      }
    }
  }

  /** The line reads as a draw of this day. */
  predicate ReadsAs(raw: string, src: Source, read: Reader, day: Day) {
    !Blank(raw) && RowReading(raw, src, read).Some? && RowReading(raw, src, read).value.day == day
  }

  /** Any two lines that read as draws of consecutive days make an accepted file, whose second row is
      quarantined on the first day and a draw on the second. */
  lemma QuarantinedRowCanFallDue(a: string, b: string, src: Source, read: Reader, day: Day)
    requires ReadsAs(a, src, read, day) && ReadsAs(b, src, read, day + 1)
    ensures ParseFile([a, b], src, read, day) == Some(Scan([DrawOf(a, 1, src, read)], [2], [1, 2]))
    ensures ParseFile([a, b], src, read, day + 1)
            == Some(Scan([DrawOf(a, 1, src, read), DrawOf(b, 2, src, read)], [], [1, 2]))
    ensures !NoRowFallsDue([a, b], src, read, day, day + 1)
  {
    TwoLinesAccepted(a, b, src, read, day, day);
    TwoLinesAccepted(a, b, src, read, day, day + 1);
    SecondLineFallsDue(a, b, src, read, day);
  }

  lemma SecondLineFallsDue(a: string, b: string, src: Source, read: Reader, day: Day)
    requires ReadsAs(b, src, read, day + 1)
    ensures !NoRowFallsDue([a, b], src, read, day, day + 1)
  {
    assert [a, b][1] == b;
  }

  lemma TwoLinesAccepted(a: string, b: string, src: Source, read: Reader, day: Day, today: nat)
    requires ReadsAs(a, src, read, day) && ReadsAs(b, src, read, day + 1) && day <= today <= day + 1
    ensures ParseFile([a, b], src, read, today)
      == Some(if today == day then Scan([DrawOf(a, 1, src, read)], [2], [1, 2])
              else Scan([DrawOf(a, 1, src, read), DrawOf(b, 2, src, read)], [], [1, 2]))
  {
    TwoReadableLines(a, b, src, read, day, today);
  }

  lemma TwoReadableLines(a: string, b: string, src: Source, read: Reader, day: Day, today: nat)
    requires ReadsAs(a, src, read, day) && ReadsAs(b, src, read, day + 1) && day <= today <= day + 1
    ensures ScanLines([a, b], src, read, today)
      == if today == day then Scan([DrawOf(a, 1, src, read)], [2], [1, 2])
         else Scan([DrawOf(a, 1, src, read), DrawOf(b, 2, src, read)], [], [1, 2])
  {
    TwoLines(a, b, src, read, today);
    var first := DrawOf(a, 1, src, read);
    assert RowDraw(a, 1, src, read, today) == Some(first);
    assert AddLine(Scan([], [], []), a, 1, src, read, today) == Scan([first], [], [1]);
    KeysAppend([], first);
    assert [] + [first] == [first];
  }

  lemma TwoLines(a: string, b: string, src: Source, read: Reader, today: nat)
    ensures ScanLines([a, b], src, read, today)
      == AddLine(AddLine(Scan([], [], []), a, 1, src, read, today), b, 2, src, read, today)
  {
    assert [a, b][..1] == [a] && [a][..0] == [];
    assert ScanLines([a], src, read, today) == AddLine(Scan([], [], []), a, 1, src, read, today);
  }
}
