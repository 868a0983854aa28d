/** CSV both ways: what a text reads as, and how records are written. */
module Csv {
  datatype CsvError = TextAfterQuote(line: nat) | QuoteInValue(line: nat) | NeverClosed(line: nat)

  datatype Outcome = Read(records: seq<seq<string>>, lines: seq<nat>) | Failed(error: CsvError)

  /** The reader between two characters, within a record. */
  datatype State = State(
    record: seq<string>, field: string, line: nat, start: nat, fieldStart: bool, inQuotes: bool, closed: bool)

  function Fresh(line: nat): State {
    State([], "", line, line, true, false, false)
  }

  function EndField(st: State): State {
    st.(record := st.record + [st.field], field := "", fieldStart := true, closed := false)
  }

  predicate IsBreak(c: char) {
    c == '\r' || c == '\n'
  }

  /** How long the line break at the start of `s` is: a CR and its LF are one. */
  function BreakLength(s: string): (n: nat)
    requires s != "" && IsBreak(s[0])
    ensures 0 < n <= |s|
  {
    if s[0] == '\r' && |s| > 1 && s[1] == '\n' then 2 else 1
  }

  function AddRecord(record: seq<string>, line: nat, more: Outcome): Outcome {
    if more.Failed? then more else Read([record] + more.records, [line] + more.lines)
  }

  /** The last record, when the file does not end with a line break. */
  function Finish(st: State): Outcome {
    if st.inQuotes then Failed(NeverClosed(st.start))
    else if !(st.fieldStart && !st.closed && st.record == []) then Read([EndField(st).record], [st.start])
    else Read([], [])
  }

  /** What the rest of a text reads as. */
  function Parse(s: string, st: State): Outcome
    decreases |s|
  {
    if s == "" then Finish(st)
    else if st.inQuotes then
      if s[0] == '"' then
        if |s| > 1 && s[1] == '"' then Parse(s[2..], st.(field := st.field + "\""))
        else Parse(s[1..], st.(inQuotes := false, closed := true))
      else if IsBreak(s[0]) then
        Parse(s[BreakLength(s)..], st.(field := st.field + s[..BreakLength(s)], line := st.line + 1))
      else Parse(s[1..], st.(field := st.field + [s[0]]))
    else if s[0] == ',' then Parse(s[1..], EndField(st))
    else if IsBreak(s[0]) then
      AddRecord(EndField(st).record, st.start, Parse(s[BreakLength(s)..], Fresh(st.line + 1)))
    else if st.closed then Failed(TextAfterQuote(st.line))
    else if s[0] == '"' then
      if st.fieldStart then Parse(s[1..], st.(inQuotes := true, fieldStart := false))
      else Failed(QuoteInValue(st.line))
    else Parse(s[1..], st.(field := st.field + [s[0]], fieldStart := false))
  }

  const Bom: char := '\U{FEFF}'

  function WithoutMark(input: string): string {
    if input != "" && input[0] == Bom then input[1..] else input
  }

  function Parsed(input: string): Outcome {
    Parse(WithoutMark(input), Fresh(1))
  }

  // ---- the reader's loop

  function Before(records: seq<seq<string>>, lines: seq<nat>, more: Outcome): Outcome {
    if more.Failed? then more else Read(records + more.records, lines + more.lines)
  }

  lemma BeforeOne(records: seq<seq<string>>, lines: seq<nat>, record: seq<string>, line: nat, more: Outcome)
    ensures Before(records, lines, AddRecord(record, line, more)) == Before(records + [record], lines + [line], more)
  {
    if more.Read? {
      assert records + ([record] + more.records) == records + [record] + more.records;
      assert lines + ([line] + more.lines) == lines + [line] + more.lines;
    }
  }

  method ParseCsv(input: string) returns (outcome: Outcome)
    ensures outcome == Parsed(input)
  {
    var text := WithoutMark(input);
    var records: seq<seq<string>>, lines: seq<nat>, st, i := [], [], Fresh(1), 0;
    assert text[0..] == text;
    while i < |text|
      invariant 0 <= i <= |text|
      invariant Before(records, lines, Parse(text[i..], st)) == Parsed(input)
    {
      var c, more := text[i], i + 1 < |text|;
      ghost var s := text[i..];
      assert s[1..] == text[i + 1..] && (more ==> s[2..] == text[i + 2..] && s[1] == text[i + 1]);
      if st.inQuotes {
        if c == '"' {
          if more && text[i + 1] == '"' {
            st, i := st.(field := st.field + "\""), i + 2;
          } else {
            st, i := st.(inQuotes := false, closed := true), i + 1;
          }
        } else if c == '\r' || c == '\n' {
          var crlf := c == '\r' && more && text[i + 1] == '\n';
          assert s[..BreakLength(s)] == if crlf then "\r\n" else [c];
          st := st.(field := st.field + (if crlf then "\r\n" else [c]), line := st.line + 1);
          i := if crlf then i + 2 else i + 1;
        } else {
          st, i := st.(field := st.field + [c]), i + 1;
        }
      } else if c == ',' {
        st, i := EndField(st), i + 1;
      } else if c == '\r' || c == '\n' {
        BeforeOne(records, lines, EndField(st).record, st.start, Parse(s[BreakLength(s)..], Fresh(st.line + 1)));
        records, lines := records + [EndField(st).record], lines + [st.start];
        i := if c == '\r' && more && text[i + 1] == '\n' then i + 2 else i + 1;
        st := Fresh(st.line + 1);
      } else if st.closed {
        return Failed(TextAfterQuote(st.line));
      } else if c == '"' {
        if !st.fieldStart {
          return Failed(QuoteInValue(st.line));
        }
        st, i := st.(inQuotes := true, fieldStart := false), i + 1;
      } else {
        st, i := st.(field := st.field + [c], fieldStart := false), i + 1;
      }
    }
    if st.inQuotes {
      return Failed(NeverClosed(st.start));
    }
    if !(st.fieldStart && !st.closed && st.record == []) {
      records, lines := records + [EndField(st).record], lines + [st.start];
    }
    outcome := Read(records, lines);
  }

  // ---- the texts of RFC 4180

  datatype Cell = Bare(text: string) | Quoted(text: string)

  datatype Break = Cr | Lf | CrLf | End

  datatype Line = Line(cells: seq<Cell>, end: Break)

  function Escape(s: string): string {
    if s == "" then "" else (if s[0] == '"' then "\"\"" else [s[0]]) + Escape(s[1..])
  }

  function CellText(c: Cell): string {
    if c.Bare? then c.text else "\"" + Escape(c.text) + "\""
  }

  function BreakText(b: Break): string {
    match b
    case Cr => "\r"
    case Lf => "\n"
    case CrLf => "\r\n"
    case End => ""
  }

  /** The cells with commas between them, then the end of the line. */
  function LineText(cells: seq<Cell>, end: Break): string {
    if cells == [] then BreakText(end)
    else if |cells| == 1 then CellText(cells[0]) + BreakText(end)
    else CellText(cells[0]) + ("," + LineText(cells[1..], end))
  }

  function Spell(ls: seq<Line>): string {
    if ls == [] then "" else LineText(ls[0].cells, ls[0].end) + Spell(ls[1..])
  }

  predicate Plain(s: string) {
    forall i | 0 <= i < |s| :: s[i] != '"' && s[i] != ',' && !IsBreak(s[i])
  }

  predicate WellCells(cells: seq<Cell>) {
    forall i | 0 <= i < |cells| && cells[i].Bare? :: Plain(cells[i].text)
  }

  /** Only the last line may go without a break, and then not if it is blank; and a CR
      that ends a line is not one that an LF follows. */
  predicate WellSpelled(ls: seq<Line>) {
    ls != [] ==>
      && ls[0].cells != []
      && WellCells(ls[0].cells)
      && (ls[0].end.End? ==> |ls| == 1 && ls[0].cells != [Bare("")])
      && (ls[0].end.Cr? ==> Spell(ls[1..]) == "" || Spell(ls[1..])[0] != '\n')
      && WellSpelled(ls[1..])
  }

  function Values(cells: seq<Cell>): seq<string> {
    seq(|cells|, i requires 0 <= i < |cells| => cells[i].text)
  }

  function Records(ls: seq<Line>): seq<seq<string>> {
    seq(|ls|, i requires 0 <= i < |ls| => Values(ls[i].cells))
  }

  /** The line breaks of a text, a CR and its LF counted once. */
  function Breaks(s: string): nat {
    if s == "" then 0
    else if IsBreak(s[0]) then 1 + Breaks(s[BreakLength(s)..])
    else Breaks(s[1..])
  }
}
