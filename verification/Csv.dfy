/** One line of an official export, as `csvLine` splits it, against its rendering under section 2 of
    RFC 4180, with blanks allowed after a closing quote. */
module Csv {

  datatype Option<+T> = None | Some(value: T)

  /** What ECMAScript's `trim` removes. */
  predicate IsSpace(c: char) {
    || c in {' ', '\t', '\n', '\r', '\U{000B}', '\U{000C}', '\U{00A0}', '\U{FEFF}', '\U{1680}'}
    || '\U{2000}' <= c <= '\U{200A}'
    || c in {'\U{2028}', '\U{2029}', '\U{202F}', '\U{205F}', '\U{3000}'}
  }

  predicate Blank(s: string) {
    forall i :: 0 <= i < |s| ==> IsSpace(s[i])
  }

  // ---- the splitter ----

  /** The loop state of `csvLine`. */
  datatype Mode = Mode(fields: seq<string>, field: string, quoted: bool, closed: bool)

  const START := Mode([], "", false, false)

  /** Reading `rest` from state `m`; `None` is a thrown `RowError`. */
  function Split(rest: string, m: Mode): Option<seq<string>> {
    if rest == "" then
      if m.quoted then None else Some(m.fields + [m.field])
    else if m.quoted then
      if rest[0] != '"' then Split(rest[1..], m.(field := m.field + [rest[0]]))
      else if |rest| > 1 && rest[1] == '"' then Split(rest[2..], m.(field := m.field + ['"']))
      else Split(rest[1..], m.(quoted := false, closed := true))
    else if rest[0] == ',' then
      Split(rest[1..], Mode(m.fields + [m.field], "", false, false))
    else if rest[0] == '"' then
      if m.field != "" || m.closed then None else Split(rest[1..], m.(quoted := true))
    else if m.closed then
      if IsSpace(rest[0]) then Split(rest[1..], m) else None
    else
      Split(rest[1..], m.(field := m.field + [rest[0]]))
  }

  /** Trailing blank columns are dropped. */
  function DropBlankTail(fields: seq<string>): (r: seq<string>)
    ensures r <= fields
    ensures r != [] ==> !Blank(r[|r| - 1])
    ensures forall i :: |r| <= i < |fields| ==> Blank(fields[i])
  {
    if fields == [] || !Blank(fields[|fields| - 1]) then fields
    else DropBlankTail(fields[..|fields| - 1])
  }

  function Fields(raw: string): Option<seq<string>> {
    match Split(raw, START)
    case None => None
    case Some(fields) => Some(DropBlankTail(fields))
  }

  method CsvLine(raw: string) returns (r: Option<seq<string>>)
    ensures r == Fields(raw)
  {
    var fields: seq<string> := [];
    var field := "";
    var quoted := false;
    var closedQuote := false;
    var index := 0;
    while index < |raw|
      invariant 0 <= index <= |raw|
      invariant Split(raw, START) == Split(raw[index..], Mode(fields, field, quoted, closedQuote))
    {
      var character := raw[index];
      assert raw[index..][0] == character && raw[index..][1..] == raw[index + 1..];
      if quoted {
        if character == '"' {
          if index + 1 < |raw| && raw[index + 1] == '"' {
            assert raw[index..][1] == '"' && raw[index..][2..] == raw[index + 2..];
            field := field + ['"'];
            index := index + 1;
          } else {
            assert |raw[index..]| > 1 ==> raw[index..][1] == raw[index + 1];
            quoted := false;
            closedQuote := true;
          }
        } else {
          field := field + [character];
        }
      } else if character == ',' {
        fields := fields + [field];
        field := "";
        closedQuote := false;
      } else if character == '"' {
        if |field| > 0 || closedQuote {
          return None;
        }
        quoted := true;
      } else {
        if closedQuote && !IsSpace(character) {
          return None;
        }
        if !closedQuote {
          field := field + [character];
        }
      }
      index := index + 1;
    }
    assert raw[index..] == "";
    if quoted {
      return None;
    }
    fields := fields + [field];
    ghost var all := fields;
    while |fields| > 0 && Blank(fields[|fields| - 1])
      invariant DropBlankTail(all) == DropBlankTail(fields)
    {
      fields := fields[..|fields| - 1];
    }
    return Some(fields);
  }

  // ---- the rendering ----

  /** A field written bare, or between quotes with each inner quote doubled, and then blanks. */
  datatype Cell = Bare(text: string) | Quoted(text: string, pad: string)

  predicate Legal(c: Cell) {
    if c.Bare? then ',' !in c.text && '"' !in c.text else Blank(c.pad)
  }

  predicate AllLegal(cells: seq<Cell>) {
    cells != [] && forall i :: 0 <= i < |cells| ==> Legal(cells[i])
  }

  function Escaped(s: string): string {
    if s == "" then "" else (if s[0] == '"' then "\"\"" else [s[0]]) + Escaped(s[1..])
  }

  function RenderCell(c: Cell): string {
    match c
    case Bare(text) => text
    case Quoted(text, pad) => "\"" + Escaped(text) + "\"" + pad
  }

  function Render(cells: seq<Cell>): string
    requires cells != []
  {
    if |cells| == 1 then RenderCell(cells[0])
    else RenderCell(cells[0]) + "," + Render(cells[1..])
  }

  function Texts(cells: seq<Cell>): (r: seq<string>)
    ensures |r| == |cells|
  {
    seq(|cells|, i requires 0 <= i < |cells| => cells[i].text)
  }

  lemma {:induction false} SplitBare(text: string, rest: string, m: Mode)
    requires ',' !in text && '"' !in text && !m.quoted && !m.closed
    ensures Split(text + rest, m) == Split(rest, m.(field := m.field + text))
  {
    if text == "" {
      assert text + rest == rest && m.field + text == m.field;
    } else {
      assert (text + rest)[0] == text[0] && (text + rest)[1..] == text[1..] + rest;
      assert text[0] in text;
      SplitBare(text[1..], rest, m.(field := m.field + [text[0]]));
      assert m.field + [text[0]] + text[1..] == m.field + text;
    }
  }

  lemma EscapedStep(c: char, rest: string, m: Mode)
    requires m.quoted
    ensures Split((if c == '"' then "\"\"" else [c]) + rest, m) == Split(rest, m.(field := m.field + [c]))
  {
    var head := if c == '"' then "\"\"" else [c];
    assert (head + rest)[0] == c && (head + rest)[|head|..] == rest;
  }

  lemma {:induction false} SplitEscaped(text: string, rest: string, m: Mode)
    requires m.quoted
    ensures Split(Escaped(text) + rest, m) == Split(rest, m.(field := m.field + text))
  {
    if text == "" {
      assert Escaped(text) + rest == rest && m.field + text == m.field;
    } else {
      var head := if text[0] == '"' then "\"\"" else [text[0]];
      assert Escaped(text) + rest == head + (Escaped(text[1..]) + rest);
      EscapedStep(text[0], Escaped(text[1..]) + rest, m);
      SplitEscaped(text[1..], rest, m.(field := m.field + [text[0]]));
      assert m.field + [text[0]] + text[1..] == m.field + text;
    }
  }

  lemma PadIsNotQuote(pad: string, rest: string)
    requires Blank(pad) && (rest == "" || rest[0] == ',')
    ensures pad + rest != "" ==> (pad + rest)[0] != '"'
  {
    if pad != "" {
      assert (pad + rest)[0] == pad[0];
    } else {
      assert pad + rest == rest;
    }
  }

  lemma {:induction false} SplitPad(pad: string, rest: string, m: Mode)
    requires Blank(pad) && !m.quoted && m.closed
    ensures Split(pad + rest, m) == Split(rest, m)
  {
    if pad == "" {
      assert pad + rest == rest;
    } else {
      assert (pad + rest)[0] == pad[0] && (pad + rest)[1..] == pad[1..] + rest;
      SplitPad(pad[1..], rest, m);
    }
  }

  lemma SplitClosing(after: string, m: Mode)
    requires m.quoted && (after != "" ==> after[0] != '"')
    ensures Split("\"" + after, m) == Split(after, m.(quoted := false, closed := true))
  {
    var all := "\"" + after;
    assert all[0] == '"' && all[1..] == after;
    assert |all| > 1 ==> all[1] == after[0];
  }

  lemma SplitOpening(after: string, done: seq<string>)
    ensures Split("\"" + after, Mode(done, "", false, false)) == Split(after, Mode(done, "", true, false))
  {
    assert ("\"" + after)[0] == '"' && ("\"" + after)[1..] == after;
  }

  lemma SplitQuoted(text: string, pad: string, rest: string, done: seq<string>)
    requires Blank(pad) && (rest == "" || rest[0] == ',')
    ensures Split(RenderCell(Quoted(text, pad)) + rest, Mode(done, "", false, false))
         == Split(rest, Mode(done, text, false, true))
  {
    var tail := "\"" + (pad + rest);
    assert RenderCell(Quoted(text, pad)) + rest == "\"" + (Escaped(text) + tail);
    SplitOpening(Escaped(text) + tail, done);
    SplitEscaped(text, tail, Mode(done, "", true, false));
    assert "" + text == text;
    PadIsNotQuote(pad, rest);
    SplitClosing(pad + rest, Mode(done, text, true, false));
    SplitPad(pad, rest, Mode(done, text, false, true));
  }

  /** One rendered cell, followed by a comma or the end of the line. */
  lemma SplitCell(c: Cell, rest: string, done: seq<string>) returns (closed: bool)
    requires Legal(c) && (rest == "" || rest[0] == ',')
    ensures Split(RenderCell(c) + rest, Mode(done, "", false, false)) == Split(rest, Mode(done, c.text, false, closed))
  {
    var m := Mode(done, "", false, false);
    closed := c.Quoted?;
    match c {
      case Bare(text) =>
        SplitBare(text, rest, m);
        assert m.field + text == text;
        assert Split(RenderCell(c) + rest, m) == Split(rest, Mode(done, c.text, false, false));
      case Quoted(text, pad) =>
        SplitQuoted(text, pad, rest, done);
    }
  }

  lemma {:induction false} SplitRendered(cells: seq<Cell>, done: seq<string>)
    requires AllLegal(cells)
    ensures Split(Render(cells), Mode(done, "", false, false)) == Some(done + Texts(cells))
  {
    if |cells| == 1 {
      var closed := SplitCell(cells[0], "", done);
      assert RenderCell(cells[0]) + "" == Render(cells);
      assert Texts(cells) == [cells[0].text];
    } else {
      var rest := "," + Render(cells[1..]);
      var closed := SplitCell(cells[0], rest, done);
      assert Split(rest, Mode(done, cells[0].text, false, closed))
          == Split(rest[1..], Mode(done + [cells[0].text], "", false, false));
      assert RenderCell(cells[0]) + rest == Render(cells);
      assert rest[1..] == Render(cells[1..]);
      SplitRendered(cells[1..], done + [cells[0].text]);
      assert done + [cells[0].text] + Texts(cells[1..]) == done + Texts(cells);
    }
  }

  /** Rendering then splitting loses exactly the trailing blank fields, however each field
      was quoted; so it returns the list if and only if the last field is not blank. */
  lemma RenderedLineRoundTrip(cells: seq<Cell>)
    requires AllLegal(cells)
    ensures Fields(Render(cells)) == Some(DropBlankTail(Texts(cells)))
    ensures Fields(Render(cells)) == Some(Texts(cells)) <==> !Blank(cells[|cells| - 1].text)
  {
    SplitRendered(cells, []);
    assert [] + Texts(cells) == Texts(cells);
  }

  // ---- every accepted line is such a rendering ----

  /** How the cell being read was written so far, `pad` being the blanks after its closing quote. */
  function SoFar(m: Mode, pad: string): string {
    if m.quoted then "\"" + Escaped(m.field)
    else if m.closed then "\"" + Escaped(m.field) + "\"" + pad
    else m.field
  }

  predicate Underway(m: Mode, pad: string) {
    && Blank(pad) && (m.quoted ==> !m.closed) && (!m.closed ==> pad == "")
    && (!m.quoted && !m.closed ==> ',' !in m.field && '"' !in m.field)
  }

  lemma {:induction false} EscapedAppend(s: string, c: char)
    ensures Escaped(s + [c]) == Escaped(s) + (if c == '"' then "\"\"" else [c])
  {
    if s == "" {
      assert s + [c] == [c] && [c][1..] == "";
    } else {
      assert (s + [c])[1..] == s[1..] + [c];
      EscapedAppend(s[1..], c);
    }
  }

  /** The cell as it stands when it ends. */
  function EndedCell(m: Mode, pad: string): Cell {
    if m.closed then Quoted(m.field, pad) else Bare(m.field)
  }

  /** What reading `rest` adds is legally written as what was begun, continued by `rest`. */
  ghost predicate CellsSay(cells: seq<Cell>, rest: string, m: Mode, pad: string) {
    && AllLegal(cells) && Render(cells) == SoFar(m, pad) + rest
    && Split(rest, m) == Some(m.fields + Texts(cells))
  }

  lemma CellsEnd(m: Mode, pad: string)
    requires Underway(m, pad) && !m.quoted
    ensures CellsSay([EndedCell(m, pad)], "", m, pad)
  {
    assert SoFar(m, pad) + "" == SoFar(m, pad);
    assert Texts([EndedCell(m, pad)]) == [m.field];
  }

  lemma RenderFirst(c: Cell, cells: seq<Cell>)
    requires cells != []
    ensures Render([c] + cells) == RenderCell(c) + "," + Render(cells)
    ensures Texts([c] + cells) == [c.text] + Texts(cells)
  {
    assert ([c] + cells)[1..] == cells;
  }

  lemma RenderComma(rest: string, m: Mode, pad: string, cells: seq<Cell>)
    requires !m.quoted && rest != "" && rest[0] == ',' && cells != [] && Render(cells) == rest[1..]
    ensures Render([EndedCell(m, pad)] + cells) == SoFar(m, pad) + rest
  {
    RenderFirst(EndedCell(m, pad), cells);
    assert SoFar(m, pad) + rest == SoFar(m, pad) + "," + rest[1..];
  }

  lemma SplitComma(rest: string, m: Mode, texts: seq<string>)
    requires !m.quoted && rest != "" && rest[0] == ','
    requires Split(rest[1..], Mode(m.fields + [m.field], "", false, false)) == Some(m.fields + [m.field] + texts)
    ensures Split(rest, m) == Some(m.fields + ([m.field] + texts))
  {
    assert m.fields + [m.field] + texts == m.fields + ([m.field] + texts);
  }

  lemma CellsComma(rest: string, m: Mode, pad: string, cells: seq<Cell>)
    requires Underway(m, pad) && !m.quoted && rest != "" && rest[0] == ','
    requires CellsSay(cells, rest[1..], Mode(m.fields + [m.field], "", false, false), "")
    ensures CellsSay([EndedCell(m, pad)] + cells, rest, m, pad)
  {
    assert "" + rest[1..] == rest[1..];
    RenderComma(rest, m, pad, cells);
    SplitComma(rest, m, Texts(cells));
    RenderFirst(EndedCell(m, pad), cells);
  }

  /** One more character of the same cell. */
  lemma CellsGoOn(rest: string, used: nat, m: Mode, pad: string, next: Mode, pad': string, cells: seq<Cell>)
    requires used <= |rest| && next.fields == m.fields && Split(rest, m) == Split(rest[used..], next)
    requires SoFar(next, pad') == SoFar(m, pad) + rest[..used]
    requires CellsSay(cells, rest[used..], next, pad')
    ensures CellsSay(cells, rest, m, pad)
  {
    assert rest == rest[..used] + rest[used..];
  }

  lemma {:induction false} Unsplit(rest: string, m: Mode, pad: string) returns (cells: seq<Cell>)
    requires Underway(m, pad) && Split(rest, m).Some?
    ensures CellsSay(cells, rest, m, pad)
    decreases |rest|
  {
    if rest == "" {
      CellsEnd(m, pad);
      return [EndedCell(m, pad)];
    }
    if !m.quoted && rest[0] == ',' {
      cells := Unsplit(rest[1..], Mode(m.fields + [m.field], "", false, false), "");
      CellsComma(rest, m, pad, cells);
      return [EndedCell(m, pad)] + cells;
    }
    var used, next, pad' := 1, m, pad;
    if m.quoted {
      EscapedAppend(m.field, rest[0]);
      if rest[0] != '"' {
        next := m.(field := m.field + [rest[0]]);
      } else if |rest| > 1 && rest[1] == '"' {
        used, next := 2, m.(field := m.field + ['"']);
        assert rest[..2] == "\"\"";
      } else {
        next := m.(quoted := false, closed := true);
      }
    } else if rest[0] == '"' {
      next := m.(quoted := true);
    } else if m.closed {
      pad' := pad + [rest[0]];
    } else {
      next := m.(field := m.field + [rest[0]]);
    }
    assert used == 1 ==> rest[..used] == [rest[0]];
    cells := Unsplit(rest[used..], next, pad');
    CellsGoOn(rest, used, m, pad, next, pad', cells);
  }

  /** A line is accepted exactly when it is legally written, and then it says what was written. */
  lemma AcceptedExactly(raw: string)
    ensures Fields(raw).Some? <==> exists cells :: AllLegal(cells) && Render(cells) == raw
    ensures forall cells :: AllLegal(cells) && Render(cells) == raw ==> Fields(raw) == Some(DropBlankTail(Texts(cells)))
  {
    if Fields(raw).Some? {
      var cells := Unsplit(raw, START, "");
      assert SoFar(START, "") + raw == raw;
    }
    forall cells | AllLegal(cells) && Render(cells) == raw ensures Fields(raw) == Some(DropBlankTail(Texts(cells))) {
      RenderedLineRoundTrip(cells);
    }
  }
}
