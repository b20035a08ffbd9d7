/** Page cursors: a date and a session in the URL-safe base 64 of section 5 of RFC 4648, without
    padding. */
module Cursors {
  import opened Csv
  import opened Draws

  // ---- base 64 ----

  type Byte = b: nat | b < 256
  type Sextet = v: nat | v < 64

  function Symbol(v: Sextet): (c: char)
    ensures Value(c) == Some(v)
  {
    if v < 26 then 'A' + v as char
    else if v < 52 then 'a' + (v - 26) as char
    else if v < 62 then '0' + (v - 52) as char
    else if v == 62 then '-' else '_'
  }

  function Value(c: char): Option<Sextet> {
    if 'A' <= c <= 'Z' then Some(c as int - 'A' as int)
    else if 'a' <= c <= 'z' then Some(c as int - 'a' as int + 26)
    else if '0' <= c <= '9' then Some(c as int - '0' as int + 52)
    else if c == '-' then Some(62)
    else if c == '_' then Some(63)
    else None
  }

  function FirstSextet(a: nat): Sextet
    requires a < 256
  {
    a / 4
  }

  function SecondSextet(a: nat, b: nat): Sextet
    requires a < 256 && b < 256
  {
    a % 4 * 16 + b / 16
  }

  function ThirdSextet(b: nat, c: nat): Sextet
    requires b < 256 && c < 256
  {
    b % 16 * 4 + c / 64
  }

  function FourthSextet(c: nat): Sextet
    requires c < 256
  {
    c % 64
  }

  /** Three bytes become four sextets; a last byte becomes two and two last bytes three. */
  function Sextets(bytes: seq<Byte>): (vs: seq<Sextet>)
    ensures |vs| == (4 * |bytes| + 2) / 3
  {
    if bytes == [] then []
    else if |bytes| == 1 then [FirstSextet(bytes[0]), SecondSextet(bytes[0], 0)]
    else if |bytes| == 2 then [FirstSextet(bytes[0]), SecondSextet(bytes[0], bytes[1]), ThirdSextet(bytes[1], 0)]
    else
      [FirstSextet(bytes[0]), SecondSextet(bytes[0], bytes[1]), ThirdSextet(bytes[1], bytes[2]), FourthSextet(bytes[2])]
      + Sextets(bytes[3..])
  }

  function FirstByte(p: nat, q: nat): Byte
    requires p < 64 && q < 64
  {
    p * 4 + q / 16
  }

  function SecondByte(q: nat, r: nat): Byte
    requires q < 64 && r < 64
  {
    q % 16 * 16 + r / 4
  }

  function ThirdByte(r: nat, t: nat): Byte
    requires r < 64 && t < 64
  {
    r % 4 * 64 + t
  }

  /** A lone last sextet has no meaning; spare bits of the last one are dropped. */
  function Regrouped(vs: seq<Sextet>): Option<seq<Byte>> {
    if vs == [] then Some([])
    else if |vs| == 1 then None
    else if |vs| == 2 then Some([FirstByte(vs[0], vs[1])])
    else if |vs| == 3 then Some([FirstByte(vs[0], vs[1]), SecondByte(vs[1], vs[2])])
    else
      var rest := Regrouped(vs[4..]);
      if rest.None? then None
      else Some([FirstByte(vs[0], vs[1]), SecondByte(vs[1], vs[2]), ThirdByte(vs[2], vs[3])] + rest.value)
  }

  lemma GroupOfThree(a: Byte, b: Byte, c: Byte)
    ensures FirstByte(FirstSextet(a), SecondSextet(a, b)) == a
    ensures SecondByte(SecondSextet(a, b), ThirdSextet(b, c)) == b
    ensures ThirdByte(ThirdSextet(b, c), FourthSextet(c)) == c
  {
  }

  lemma RegroupedGroup(p: Sextet, q: Sextet, r: Sextet, t: Sextet, rest: seq<Sextet>, bytes: seq<Byte>)
    requires Regrouped(rest) == Some(bytes)
    ensures Regrouped([p, q]) == Some([FirstByte(p, q)])
    ensures Regrouped([p, q, r]) == Some([FirstByte(p, q), SecondByte(q, r)])
    ensures Regrouped([p, q, r, t] + rest) == Some([FirstByte(p, q), SecondByte(q, r), ThirdByte(r, t)] + bytes)
  {
    assert ([p, q, r, t] + rest)[4..] == rest;
  }

  lemma FirstOfGroup(a: Byte, b: Byte)
    ensures FirstByte(FirstSextet(a), SecondSextet(a, b)) == a
  {
  }

  lemma OneRoundTrip(a: Byte, zero: Byte)
    requires zero == 0
    ensures Regrouped(Sextets([a])) == Some([a])
  {
    FirstOfGroup(a, zero);
    assert Sextets([a]) == [FirstSextet(a), SecondSextet(a, zero)];
  }

  lemma TwoRoundTrip(a: Byte, b: Byte, zero: Byte)
    requires zero == 0
    ensures Regrouped(Sextets([a, b])) == Some([a, b])
  {
    GroupOfThree(a, b, zero);
    assert Sextets([a, b]) == [FirstSextet(a), SecondSextet(a, b), ThirdSextet(b, zero)];
  }

  lemma GroupRoundTrip(a: Byte, b: Byte, c: Byte, rest: seq<Byte>)
    requires Regrouped(Sextets(rest)) == Some(rest)
    ensures Regrouped(Sextets([a, b, c] + rest)) == Some([a, b, c] + rest)
  {
    GroupOfThree(a, b, c);
    RegroupedGroup(FirstSextet(a), SecondSextet(a, b), ThirdSextet(b, c), FourthSextet(c), Sextets(rest), rest);
    assert ([a, b, c] + rest)[3..] == rest;
  }

  lemma {:induction false} SextetsRoundTrip(bytes: seq<Byte>)
    ensures Regrouped(Sextets(bytes)) == Some(bytes)
  {
    if |bytes| == 1 {
      OneRoundTrip(bytes[0], 0);
      assert bytes == [bytes[0]];
    } else if |bytes| == 2 {
      TwoRoundTrip(bytes[0], bytes[1], 0);
      assert bytes == [bytes[0], bytes[1]];
    } else if |bytes| >= 3 {
      SextetsRoundTrip(bytes[3..]);
      GroupRoundTrip(bytes[0], bytes[1], bytes[2], bytes[3..]);
      assert bytes == [bytes[0], bytes[1], bytes[2]] + bytes[3..];
    }
  }

  /** Text whose characters fit in one byte each. */
  predicate Bytes(text: string) {
    text != "" ==> text[0] as int < 256 && Bytes(text[1..])
  }

  function Ords(text: string): (bytes: seq<Byte>)
    requires Bytes(text)
    ensures |bytes| == |text|
  {
    if text == "" then [] else [text[0] as int] + Ords(text[1..])
  }

  function Chars(bytes: seq<Byte>): string {
    if bytes == [] then "" else [bytes[0] as char] + Chars(bytes[1..])
  }

  function Symbols(vs: seq<Sextet>): (text: string)
    ensures |text| == |vs|
  {
    if vs == [] then "" else [Symbol(vs[0])] + Symbols(vs[1..])
  }

  function Values(text: string): Option<seq<Sextet>> {
    if text == "" then Some([])
    else
      var first, rest := Value(text[0]), Values(text[1..]);
      if first.None? || rest.None? then None else Some([first.value] + rest.value)
  }

  function Encode(text: string): string
    requires Bytes(text)
  {
    Symbols(Sextets(Ords(text)))
  }

  function Decode(text: string): Option<string> {
    var vs := Values(text);
    if vs.None? then None
    else
      var bytes := Regrouped(vs.value);
      if bytes.None? then None else Some(Chars(bytes.value))
  }

  lemma {:induction false} CharsRoundTrip(text: string)
    requires Bytes(text)
    ensures Chars(Ords(text)) == text
  {
    if text != "" {
      CharsRoundTrip(text[1..]);
      assert Ords(text)[1..] == Ords(text[1..]);
    }
  }

  lemma {:induction false} SymbolsRoundTrip(vs: seq<Sextet>)
    ensures Values(Symbols(vs)) == Some(vs)
  {
    if vs != [] {
      SymbolsRoundTrip(vs[1..]);
      assert Symbols(vs)[1..] == Symbols(vs[1..]);
      assert vs == [vs[0]] + vs[1..];
    }
  }

  /** Decoding an encoding gives the text back; the encoding uses the URL-safe alphabet only and no
      padding. */
  lemma Base64RoundTrip(text: string)
    requires Bytes(text)
    ensures Decode(Encode(text)) == Some(text)
    ensures |Encode(text)| == (4 * |text| + 2) / 3 && Values(Encode(text)).Some?
  {
    SymbolsRoundTrip(Sextets(Ords(text)));
    SextetsRoundTrip(Ords(text));
    CharsRoundTrip(text);
  }

  /** The first test vectors of section 10 of RFC 4648, without padding. */
  lemma TestVectors()
    ensures Bytes("f") && Encode("f") == "Zg"
    ensures Bytes("fo") && Encode("fo") == "Zm8"
    ensures Bytes("foo") && Encode("foo") == "Zm9v"
  {
  }

  // ---- cursors ----

  predicate IsDigit(c: char) {
    '0' <= c <= '9'
  }

  /** Four digits, two digits and two digits, joined by hyphens. */
  predicate IsDateText(d: string) {
    && |d| == 10 && d[4] == '-' && d[7] == '-'
    && forall i :: 0 <= i < 10 && i != 4 && i != 7 ==> IsDigit(d[i])
  }

  function SessionNamed(name: string): Option<Session> {
    if name == "" then Some(NoSession)
    else if name == "morning" then Some(Morning)
    else if name == "day" then Some(Midday)
    else if name == "evening" then Some(Evening)
    else if name == "night" then Some(Night)
    else None
  }

  datatype Cursor = Cursor(date: string, session: Session)

  function CursorText(c: Cursor): string {
    c.date + "|" + SessionName(c.session)
  }

  function EncodeCursor(c: Cursor): string
    requires Bytes(CursorText(c))
  {
    Encode(CursorText(c))
  }

  function DecodeCursor(text: string): Option<Cursor> {
    if !(1 <= |text| <= 100) || Decode(text).None? then None
    else
      var decoded := Decode(text).value;
      var at := FirstMark(decoded, '|');
      if at >= |decoded| then None
      else
        var date, session := decoded[..at], SessionNamed(decoded[at + 1..]);
        if IsDateText(date) && session.Some? then Some(Cursor(date, session.value)) else None
  }

  lemma {:induction false} AsciiBytes(text: string)
    requires forall i :: 0 <= i < |text| ==> text[i] < 128 as char
    ensures Bytes(text)
  {
    if text != "" {
      AsciiBytes(text[1..]);
    }
  }

  lemma DateTextBytes(c: Cursor)
    requires IsDateText(c.date)
    ensures Bytes(CursorText(c))
  {
    AsciiBytes(CursorText(c));
  }

  /** A cursor handed out decodes to the row it was made from. */
  lemma CursorRoundTrip(c: Cursor)
    requires IsDateText(c.date)
    ensures Bytes(CursorText(c)) && DecodeCursor(EncodeCursor(c)) == Some(c)
  {
    var name := SessionName(c.session);
    assert |name| <= 7 && SessionNamed(name) == Some(c.session);
    FirstMarkAfter(c.date, '|', name);
    DateTextBytes(c);
    Base64RoundTrip(CursorText(c));
    assert CursorText(c)[..10] == c.date && CursorText(c)[11..] == name;
  }

  lemma {:induction false} FirstMarkFinds(s: string, mark: char)
    ensures FirstMark(s, mark) <= |s|
    ensures FirstMark(s, mark) < |s| ==> s[FirstMark(s, mark)] == mark
  {
    if s != "" && s[0] != mark {
      FirstMarkFinds(s[1..], mark);
    }
  }

  lemma SessionNamedExactly(name: string, s: Session)
    ensures SessionNamed(name) == Some(s) <==> name == SessionName(s)
  {
  }

  lemma RegroupedStep(vs: seq<Sextet>)
    ensures |vs| < 4 ==> (Regrouped(vs).Some? <==> |vs| != 1)
    ensures |vs| >= 4 ==> (Regrouped(vs).Some? <==> Regrouped(vs[4..]).Some?)
  {
  }

  lemma {:induction false} RegroupedExactly(vs: seq<Sextet>)
    ensures Regrouped(vs).Some? <==> |vs| % 4 != 1
  {
    RegroupedStep(vs);
    if |vs| >= 4 {
      RegroupedExactly(vs[4..]);
      assert |vs[4..]| % 4 == |vs| % 4;
    }
  }

  lemma JoinsAtMark(decoded: string)
    ensures var at := FirstMark(decoded, '|');
      at < |decoded| ==> decoded == decoded[..at] + "|" + decoded[at + 1..]
  {
    FirstMarkFinds(decoded, '|');
  }

  lemma SplitsAtMark(date: string, name: string)
    requires '|' !in date
    ensures var joined := date + "|" + name; var at := FirstMark(joined, '|');
      at == |date| < |joined| && joined[..at] == date && joined[at + 1..] == name
  {
    FirstMarkAfter(date, '|', name);
  }

  /** A cursor is accepted exactly when it has at most 100 characters, all of the URL-safe alphabet and
      not one more than a multiple of four, that decode to a date, a bar and the name of a session;
      it then names these. */
  lemma CursorAcceptedExactly(text: string, c: Cursor)
    ensures DecodeCursor(text) == Some(c) <==>
      1 <= |text| <= 100 && IsDateText(c.date) && Decode(text) == Some(CursorText(c))
    ensures Decode(text).Some? <==> Values(text).Some? && |Values(text).value| % 4 != 1
  {
    if Values(text).Some? {
      RegroupedExactly(Values(text).value);
    }
    if Decode(text).Some? && IsDateText(c.date) {
      JoinsAtMark(Decode(text).value);
      SplitsAtMark(c.date, SessionName(c.session));
    }
    if DecodeCursor(text).Some? {
      var decoded := Decode(text).value;
      SessionNamedExactly(decoded[FirstMark(decoded, '|') + 1..], c.session);
    }
  }
}
