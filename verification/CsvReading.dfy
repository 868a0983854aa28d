/** Every CSV text reads as the records it spells, and only such texts read at all. */
module CsvReading {
  import opened Csv

  // ---- line breaks

  predicate Splits(a: string, b: string) {
    a != "" && b != "" && a[|a| - 1] == '\r' && b[0] == '\n'
  }

  /** Line breaks add up, unless a CR and its LF are taken apart. */
  lemma {:induction false} BreaksJoin(a: string, b: string)
    requires !Splits(a, b)
    ensures Breaks(a + b) == Breaks(a) + Breaks(b)
    decreases |a|
  {
    if a == "" {
      assert a + b == b;
    } else if IsBreak(a[0]) {
      var n := BreakLength(a);
      assert BreakLength(a + b) == n;
      assert (a + b)[n..] == a[n..] + b;
      BreaksJoin(a[n..], b);
    } else {
      assert (a + b)[1..] == a[1..] + b;
      BreaksJoin(a[1..], b);
    }
  }

  lemma {:induction false} PlainBreaks(s: string)
    requires Plain(s)
    ensures Breaks(s) == 0
  {
    if s != "" {
      PlainBreaks(s[1..]);
    }
  }

  lemma EscapeFirst(s: string)
    requires s != ""
    ensures Escape(s) != "" && Escape(s)[0] == s[0]
  {
  }

  /** A break at the front counts one, whatever follows it. */
  lemma BreakThen(b: string, rest: string)
    requires b != "" && IsBreak(b[0]) && BreakLength(b + rest) == |b|
    ensures Breaks(b + rest) == 1 + Breaks(rest)
  {
    assert (b + rest)[|b|..] == rest;
  }

  lemma OtherBreaks(s: string)
    requires s != "" && !IsBreak(s[0])
    ensures Breaks(s) == Breaks(s[1..]) && Breaks(s[..1]) == 0
  {
  }

  lemma {:induction false} EscapeBreaks(s: string)
    ensures Breaks(Escape(s)) == Breaks(s)
    decreases |s|
  {
    if s != "" {
      var n, rest := Taken(s), Escape(s[Taken(s)..]);
      EscapeTaken(s);
      EscapeBreaks(s[n..]);
      assert IsBreak(s[0]) ==> Breaks(s) == 1 + Breaks(s[n..]);
      hide Breaks, Escape;
      if s[0] == '"' {
        OtherBreaks(s);
        OtherBreaks("\"" + rest);
        OtherBreaks("\"\"" + rest);
        assert ("\"" + rest)[1..] == rest && ("\"\"" + rest)[1..] == "\"" + rest;
      } else if IsBreak(s[0]) {
        BreakEscaped(s);
        BreakThen(s[..n], rest);
      } else {
        OtherBreaks(s);
        BreaksJoin(s[..1], rest);
      }
    }
  }

  lemma BreakEscaped(s: string)
    requires s != "" && IsBreak(s[0])
    ensures BreakLength(s[..Taken(s)] + Escape(s[Taken(s)..])) == Taken(s)
  {
    if Taken(s) < |s| {
      EscapeFirst(s[Taken(s)..]);
    }
  }

  // ---- a cell

  lemma {:induction false} BareIsRead(w: string, tail: string, st: State)
    requires !st.inQuotes && !st.closed && Plain(w)
    ensures Parse(w + tail, st) == Parse(tail, st.(field := st.field + w, fieldStart := st.fieldStart && w == ""))
  {
    if w == "" {
      assert w + tail == tail && st.field + w == st.field;
    } else {
      var next := st.(field := st.field + [w[0]], fieldStart := false);
      assert (w + tail)[1..] == w[1..] + tail;
      BareIsRead(w[1..], tail, next);
      assert next.field + w[1..] == st.field + w;
    }
  }

  predicate AfterQuote(tail: string) {
    tail == "" || tail[0] != '"'
  }

  /** How much of a quoted value is read at once. */
  function Taken(w: string): (n: nat)
    requires w != ""
    ensures 0 < n <= |w|
  {
    if IsBreak(w[0]) then BreakLength(w) else 1
  }

  lemma EscapeOne(w: string)
    requires w != ""
    ensures Escape(w) == (if w[0] == '"' then "\"\"" else [w[0]]) + Escape(w[1..])
  {
  }

  lemma EscapeTwo(a: char, b: char, w: string)
    ensures [a] + ([b] + Escape(w)) == [a, b] + Escape(w)
  {
  }

  lemma EscapeTaken(w: string)
    requires w != ""
    ensures Escape(w) == (if w[0] == '"' then "\"\"" else w[..Taken(w)]) + Escape(w[Taken(w)..])
  {
    hide Escape;
    EscapeOne(w);
    if Taken(w) == 2 {
      EscapeOne(w[1..]);
      EscapeTwo(w[0], w[1], w[1..][1..]);
      assert w[1..][1..] == w[2..] && w[..2] == [w[0], w[1]];
    } else {
      assert w[..1] == [w[0]];
    }
  }

  lemma PairIsRead(rest: string, st: State)
    requires st.inQuotes
    ensures Parse("\"\"" + rest, st) == Parse(rest, st.(field := st.field + "\""))
  {
    assert ("\"\"" + rest)[2..] == rest;
  }

  lemma BreakIsRead(b: string, rest: string, st: State)
    requires st.inQuotes && b != "" && IsBreak(b[0]) && BreakLength(b + rest) == |b|
    ensures Parse(b + rest, st) == Parse(rest, st.(field := st.field + b, line := st.line + 1))
  {
    assert (b + rest)[|b|..] == rest && (b + rest)[..|b|] == b;
  }

  lemma OtherIsRead(c: char, rest: string, st: State)
    requires st.inQuotes && c != '"' && !IsBreak(c)
    ensures Parse([c] + rest, st) == Parse(rest, st.(field := st.field + [c]))
  {
    assert ([c] + rest)[1..] == rest;
  }

  function AfterTaken(s: string, st: State): State
    requires s != ""
  {
    st.(field := st.field + s[..Taken(s)], line := st.line + if IsBreak(s[0]) then 1 else 0)
  }

  lemma QuotedStep(w: string, tail: string, st: State)
    requires st.inQuotes && w != ""
    ensures Parse(Escape(w) + "\"" + tail, st)
         == Parse(Escape(w[Taken(w)..]) + "\"" + tail, AfterTaken(w, st))
  {
    var rest := Escape(w[Taken(w)..]) + "\"" + tail;
    EscapeTaken(w);
    if w[0] == '"' {
      hide Parse, Escape;
      assert Escape(w) + "\"" + tail == "\"\"" + rest;
      PairIsRead(rest, st);
      assert w[..1] == "\"";
    } else {
      TakenFirst(w, tail);
      hide Parse, Escape;
      assert Escape(w) + "\"" + tail == w[..Taken(w)] + rest;
      if IsBreak(w[0]) {
        hide BreakLength;
        BreakIsRead(w[..Taken(w)], rest, st);
      } else {
        assert w[..1] == [w[0]];
        OtherIsRead(w[0], rest, st);
      }
    }
  }

  /** What follows does not lengthen a line break inside quotes. */
  lemma TakenFirst(w: string, tail: string)
    requires w != ""
    ensures IsBreak(w[0]) ==> BreakLength(w[..Taken(w)] + (Escape(w[Taken(w)..]) + "\"" + tail)) == Taken(w)
  {
    if Taken(w) < |w| {
      EscapeFirst(w[Taken(w)..]);
    }
  }

  function AfterQuoted(st: State, w: string): State {
    st.(field := st.field + w, line := st.line + Breaks(w), inQuotes := false, closed := true)
  }

  lemma QuoteCloses(tail: string, st: State)
    requires st.inQuotes && AfterQuote(tail)
    ensures Parse(Escape("") + "\"" + tail, st) == Parse(tail, AfterQuoted(st, ""))
  {
    var s := Escape("") + "\"" + tail;
    assert s[1..] == tail && st.field + "" == st.field;
  }

  lemma TakenAdds(w: string, st: State)
    requires w != ""
    ensures AfterQuoted(AfterTaken(w, st), w[Taken(w)..]) == AfterQuoted(st, w)
  {
    assert st.field + w[..Taken(w)] + w[Taken(w)..] == st.field + w;
  }

  lemma {:induction false} QuotedIsRead(w: string, tail: string, st: State)
    requires st.inQuotes && AfterQuote(tail)
    ensures Parse(Escape(w) + "\"" + tail, st) == Parse(tail, AfterQuoted(st, w))
    decreases |w|
  {
    hide Parse, Escape, Breaks, AfterQuoted;
    if w == "" {
      QuoteCloses(tail, st);
    } else {
      QuotedStep(w, tail, st);
      QuotedIsRead(w[Taken(w)..], tail, AfterTaken(w, st));
      TakenAdds(w, st);
    }
  }

  predicate AtField(st: State) {
    st.fieldStart && st.field == "" && !st.inQuotes && !st.closed
  }

  function CellBreaks(c: Cell): nat {
    if c.Quoted? then Breaks(c.text) else 0
  }

  function AfterCell(st: State, c: Cell): State {
    st.(field := c.text, line := st.line + CellBreaks(c), fieldStart := c == Bare(""), closed := c.Quoted?)
  }

  lemma QuoteOpens(rest: string, st: State)
    requires AtField(st)
    ensures Parse("\"" + rest, st) == Parse(rest, st.(inQuotes := true, fieldStart := false))
  {
    assert ("\"" + rest)[1..] == rest;
  }

  lemma QuotedText(w: string, tail: string)
    ensures CellText(Quoted(w)) + tail == "\"" + (Escape(w) + "\"" + tail)
  {
    hide Escape;
  }

  lemma QuotedCellIsRead(w: string, tail: string, st: State)
    requires AtField(st) && AfterQuote(tail)
    ensures Parse(CellText(Quoted(w)) + tail, st) == Parse(tail, AfterCell(st, Quoted(w)))
  {
    hide Parse, Escape, CellText, Breaks;
    QuotedText(w, tail);
    QuoteOpens(Escape(w) + "\"" + tail, st);
    QuotedIsRead(w, tail, st.(inQuotes := true, fieldStart := false));
    assert st.field + w == w;
  }

  lemma BareCellIsRead(w: string, tail: string, st: State)
    requires AtField(st) && Plain(w)
    ensures Parse(CellText(Bare(w)) + tail, st) == Parse(tail, AfterCell(st, Bare(w)))
  {
    hide Parse;
    BareIsRead(w, tail, st);
    assert st.field + w == w;
  }

  lemma CellIsRead(c: Cell, tail: string, st: State)
    requires AtField(st) && AfterQuote(tail) && (c.Bare? ==> Plain(c.text))
    ensures Parse(CellText(c) + tail, st) == Parse(tail, AfterCell(st, c))
  {
    hide *;
    match c
    case Bare(w) => BareCellIsRead(w, tail, st);
    case Quoted(w) => QuotedCellIsRead(w, tail, st);
  }

  // ---- a line

  function CellsBreaks(cells: seq<Cell>): nat {
    if cells == [] then 0 else CellBreaks(cells[0]) + CellsBreaks(cells[1..])
  }

  function LineBreaks(l: Line): nat {
    CellsBreaks(l.cells) + if l.end.End? then 0 else 1
  }

  predicate Ends(cells: seq<Cell>, end: Break, tail: string, st: State) {
    && (end.End? ==> tail == "" && !(st.record == [] && cells == [Bare("")]))
    && (end.Cr? ==> tail == "" || tail[0] != '\n')
  }

  function LineRead(cells: seq<Cell>, end: Break, tail: string, st: State): Outcome {
    if end.End? then Read([st.record + Values(cells)], [st.start])
    else AddRecord(st.record + Values(cells), st.start, Parse(tail, Fresh(st.line + CellsBreaks(cells) + 1)))
  }

  lemma LastCellIsRead(c: Cell, end: Break, tail: string, st: State)
    requires AtField(st) && WellCells([c]) && Ends([c], end, tail, st)
    ensures Parse(CellText(c) + (BreakText(end) + tail), st) == LineRead([c], end, tail, st)
  {
    var rest, after := BreakText(end) + tail, AfterCell(st, c);
    assert [c][0] == c;
    CellIsRead(c, rest, st);
    assert Values([c]) == [c.text];
    if !end.End? {
      assert BreakLength(rest) == |BreakText(end)| && rest[BreakLength(rest)..] == tail;
      assert CellsBreaks([c]) == CellBreaks(c);
    }
  }

  /** A line of several cells is its first, a comma, and the rest. */
  lemma LineTextMore(cells: seq<Cell>, end: Break, tail: string)
    requires |cells| > 1
    ensures LineText(cells, end) + tail == CellText(cells[0]) + ("," + (LineText(cells[1..], end) + tail))
  {
  }

  lemma LineTextLast(c: Cell, end: Break, tail: string)
    ensures LineText([c], end) + tail == CellText(c) + (BreakText(end) + tail)
  {
  }

  lemma CellAndCommaAreRead(c: Cell, rest: string, st: State)
    requires AtField(st) && (c.Bare? ==> Plain(c.text))
    ensures Parse(CellText(c) + ("," + rest), st) == Parse(rest, EndField(AfterCell(st, c)))
  {
    CellIsRead(c, "," + rest, st);
    assert ("," + rest)[1..] == rest;
  }

  lemma MoreCellsRead(cells: seq<Cell>, end: Break, tail: string, st: State)
    requires |cells| > 1
    ensures LineRead(cells[1..], end, tail, EndField(AfterCell(st, cells[0]))) == LineRead(cells, end, tail, st)
  {
    hide Parse;
    assert EndField(AfterCell(st, cells[0])).record + Values(cells[1..]) == st.record + Values(cells);
  }

  lemma {:induction false} LineIsRead(cells: seq<Cell>, end: Break, tail: string, st: State)
    requires AtField(st) && cells != [] && WellCells(cells) && Ends(cells, end, tail, st)
    ensures Parse(LineText(cells, end) + tail, st) == LineRead(cells, end, tail, st)
    decreases |cells|
  {
    hide Parse, LineText, CellText, LineRead;
    if |cells| == 1 {
      assert cells == [cells[0]];
      LineTextLast(cells[0], end, tail);
      LastCellIsRead(cells[0], end, tail, st);
    } else {
      LineTextMore(cells, end, tail);
      CellAndCommaAreRead(cells[0], LineText(cells[1..], end) + tail, st);
      LineIsRead(cells[1..], end, tail, EndField(AfterCell(st, cells[0])));
      MoreCellsRead(cells, end, tail, st);
    }
  }

  // ---- a text

  /** The line on which each record starts, counted by the breaks its lines hold. */
  function Starts(ls: seq<Line>, line: nat): seq<nat> {
    if ls == [] then [] else [line] + Starts(ls[1..], line + LineBreaks(ls[0]))
  }

  /** A well spelled text reads as the records it spells. */
  lemma {:induction false} TextIsRead(ls: seq<Line>, line: nat)
    requires WellSpelled(ls)
    ensures Parse(Spell(ls), Fresh(line)) == Read(Records(ls), Starts(ls, line))
  {
    hide Parse, Values, LineText, LineBreaks;
    if ls == [] {
      NothingIsRead(line);
    } else {
      var l, rest := ls[0], Spell(ls[1..]);
      LineIsRead(l.cells, l.end, rest, Fresh(line));
      RecordsMore(ls);
      if l.end.End? {
        assert ls[1..] == [];
      } else {
        TextIsRead(ls[1..], line + LineBreaks(l));
        assert LineBreaks(l) == CellsBreaks(l.cells) + 1 by {
          LineWithBreak(l);
        }
      }
      hide Records;
    }
  }

  lemma RecordsMore(ls: seq<Line>)
    requires ls != []
    ensures [] + Values(ls[0].cells) == Values(ls[0].cells)
    ensures Records(ls) == [Values(ls[0].cells)] + Records(ls[1..])
  {
    hide Values;
  }

  lemma LineWithBreak(l: Line)
    requires !l.end.End?
    ensures LineBreaks(l) == CellsBreaks(l.cells) + 1
  {
  }

  lemma NothingIsRead(line: nat)
    ensures Parse("", Fresh(line)) == Read([], [])
  {
  }

  // ---- the lines records start on

  lemma CellTextBreaks(c: Cell, tail: string)
    requires (c.Bare? ==> Plain(c.text)) && (tail == "" || c.Quoted? || tail[0] != '"')
    ensures Breaks(CellText(c) + tail) == CellBreaks(c) + Breaks(tail)
  {
    if c.Bare? {
      PlainBreaks(c.text);
      BreaksJoin(c.text, tail);
    } else {
      EscapeBreaks(c.text);
      assert CellText(c) + tail == "\"" + (Escape(c.text) + ("\"" + tail));
      BreaksJoin("\"", Escape(c.text) + ("\"" + tail));
      BreaksJoin(Escape(c.text), "\"" + tail);
      BreaksJoin("\"", tail);
    }
  }

  lemma EndBreaks(end: Break, tail: string)
    requires end.Cr? ==> tail == "" || tail[0] != '\n'
    ensures Breaks(BreakText(end) + tail) == (if end.End? then 0 else 1) + Breaks(tail)
  {
    var s := BreakText(end) + tail;
    if end.End? {
      assert s == tail;
    } else {
      assert BreakLength(s) == |BreakText(end)| && s[BreakLength(s)..] == tail;
    }
  }

  lemma LastCellBreaks(c: Cell, end: Break, tail: string)
    requires WellCells([c]) && (end.Cr? ==> tail == "" || tail[0] != '\n')
    requires end.End? ==> tail == ""
    ensures Breaks(CellText(c) + (BreakText(end) + tail)) == LineBreaks(Line([c], end)) + Breaks(tail)
  {
    assert [c][0] == c;
    CellTextBreaks(c, BreakText(end) + tail);
    EndBreaks(end, tail);
    hide Breaks;
    assert CellsBreaks([c]) == CellBreaks(c);
  }

  lemma {:induction false} LineTextBreaks(cells: seq<Cell>, end: Break, tail: string)
    requires cells != [] && WellCells(cells) && (end.Cr? ==> tail == "" || tail[0] != '\n')
    requires end.End? ==> tail == ""
    ensures Breaks(LineText(cells, end) + tail) == LineBreaks(Line(cells, end)) + Breaks(tail)
    decreases |cells|
  {
    hide Breaks, CellText, LineText;
    if |cells| == 1 {
      assert cells == [cells[0]];
      LineTextLast(cells[0], end, tail);
      LastCellBreaks(cells[0], end, tail);
    } else {
      LineTextMore(cells, end, tail);
      CellAndCommaBreaks(cells[0], LineText(cells[1..], end) + tail);
      LineTextBreaks(cells[1..], end, tail);
    }
  }

  lemma CellAndCommaBreaks(c: Cell, rest: string)
    requires c.Bare? ==> Plain(c.text)
    ensures Breaks(CellText(c) + ("," + rest)) == CellBreaks(c) + Breaks(rest)
  {
    CellTextBreaks(c, "," + rest);
    assert ("," + rest)[1..] == rest;
  }

  lemma {:induction false} SpellPrefix(ls: seq<Line>, i: nat)
    requires i <= |ls|
    ensures Spell(ls[..i]) <= Spell(ls)
  {
    if i > 0 {
      SpellPrefix(ls[1..], i - 1);
      assert ls[..i][1..] == ls[1..][..i - 1];
    }
  }

  lemma {:induction false} StartsLength(ls: seq<Line>, line: nat)
    ensures |Starts(ls, line)| == |ls|
  {
    if ls != [] {
      StartsLength(ls[1..], line + LineBreaks(ls[0]));
    }
  }

  /** A line with more after it is followed by what does not lengthen its break. */
  lemma NotLast(ls: seq<Line>, i: nat)
    requires WellSpelled(ls) && 0 < i < |ls|
    ensures ls[0].cells != [] && WellCells(ls[0].cells) && !ls[0].end.End?
    ensures ls[0].end.Cr? ==> Spell(ls[1..][..i - 1]) == "" || Spell(ls[1..][..i - 1])[0] != '\n'
    ensures WellSpelled(ls[1..])
  {
    SpellPrefix(ls[1..], i - 1);
    hide Spell, WellCells;
  }

  lemma FirstLines(ls: seq<Line>, line: nat, i: nat)
    requires 0 < i < |ls|
    ensures Spell(ls[..i]) == LineText(ls[0].cells, ls[0].end) + Spell(ls[1..][..i - 1])
    ensures |Starts(ls[1..], line + LineBreaks(ls[0]))| == |ls| - 1 && |Starts(ls, line)| == |ls|
    ensures Starts(ls, line)[i] == Starts(ls[1..], line + LineBreaks(ls[0]))[i - 1]
  {
    hide LineText, LineBreaks;
    assert ls[..i][1..] == ls[1..][..i - 1] && ls[..i][0] == ls[0];
    StartsLength(ls, line);
    StartsLength(ls[1..], line + LineBreaks(ls[0]));
  }

  lemma FirstStart(ls: seq<Line>, line: nat)
    requires ls != []
    ensures Starts(ls, line)[0] == line && Breaks(Spell(ls[..0])) == 0
  {
    assert ls[..0] == [];
    hide LineBreaks;
  }

  /** Record `i` starts on the line after all the line breaks before it. */
  lemma {:induction false} StartsCountBreaks(ls: seq<Line>, line: nat, i: nat)
    requires WellSpelled(ls) && i < |ls|
    ensures |Starts(ls, line)| == |ls| && Starts(ls, line)[i] == line + Breaks(Spell(ls[..i]))
    decreases |ls|
  {
    hide *;
    StartsLength(ls, line);
    if i == 0 {
      FirstStart(ls, line);
    } else {
      NotLast(ls, i);
      FirstLines(ls, line, i);
      StartsCountBreaks(ls[1..], line + LineBreaks(ls[0]), i - 1);
      LineTextBreaks(ls[0].cells, ls[0].end, Spell(ls[1..][..i - 1]));
      LineOf(ls[0]);
    }
  }

  lemma LineOf(l: Line)
    ensures Line(l.cells, l.end) == l
  {
  }
}
