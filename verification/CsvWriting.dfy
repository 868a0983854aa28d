/** Only well spelled CSV reads, and what is written reads back. */
module CsvWriting {
  import opened Csv
  import opened CsvReading
  import Sequences

  // ---- only well spelled texts read

  predicate Delimits(tail: string) {
    tail == "" || tail[0] == ',' || IsBreak(tail[0])
  }

  /** The text up to the first character that a bare value cannot hold. */
  function PlainPart(s: string): string {
    if s == "" || s[0] == '"' || s[0] == ',' || IsBreak(s[0]) then "" else [s[0]] + PlainPart(s[1..])
  }

  lemma {:induction false} PlainPartIs(s: string)
    ensures PlainPart(s) <= s && Plain(PlainPart(s))
    ensures var tail := s[|PlainPart(s)|..]; Delimits(tail) || tail[0] == '"'
  {
    if PlainPart(s) != "" {
      PlainPartIs(s[1..]);
      assert s[|PlainPart(s)|..] == s[1..][|PlainPart(s[1..])|..];
    }
  }

  lemma ReadBare(s: string, st: State) returns (c: Cell, tail: string)
    requires AtField(st) && Parse(s, st).Read? && (s == "" || s[0] != '"')
    ensures s == CellText(c) + tail && c.Bare? && Plain(c.text) && Delimits(tail)
  {
    PlainPartIs(s);
    var w := PlainPart(s);
    c, tail := Bare(w), s[|w|..];
    assert s == w + tail;
    BareIsRead(w, tail, st);
  }

  lemma TakenIsRead(s: string, st: State)
    requires st.inQuotes && s != "" && s[0] != '"'
    ensures Parse(s, st) == Parse(s[Taken(s)..], AfterTaken(s, st))
  {
    if !IsBreak(s[0]) {
      assert s[..1] == [s[0]];
      assert AfterTaken(s, st) == st.(field := st.field + [s[0]]);
    }
  }

  /** A quoted value goes on, or it is closed and a comma, a line break or the end follows. */
  lemma QuotedGoesOn(s: string, st: State)
    requires st.inQuotes && Parse(s, st).Read?
    ensures s != ""
    ensures s[0] == '"' && !(|s| > 1 && s[1] == '"') ==> s == Escape("") + "\"" + s[1..] && Delimits(s[1..])
  {
  }

  lemma PairBack(v: string, tail: string)
    ensures Escape("\"" + v) + "\"" + tail == "\"\"" + (Escape(v) + "\"" + tail)
  {
    assert ("\"" + v)[1..] == v;
    hide Escape;
  }

  lemma {:induction false} ReadQuoted(s: string, st: State) returns (w: string, tail: string)
    requires st.inQuotes && Parse(s, st).Read?
    ensures s == Escape(w) + "\"" + tail && Delimits(tail)
    decreases |s|
  {
    hide Parse, Escape, Delimits, IsBreak;
    QuotedGoesOn(s, st);
    var v: string;
    if s[0] != '"' {
      TakenIsRead(s, st);
      v, tail := ReadQuoted(s[Taken(s)..], AfterTaken(s, st));
      w := s[..Taken(s)] + v;
      TakenBack(s, v, tail);
    } else if |s| > 1 && s[1] == '"' {
      assert s == "\"\"" + s[2..];
      PairIsRead(s[2..], st);
      v, tail := ReadQuoted(s[2..], st.(field := st.field + "\""));
      w := "\"" + v;
      PairBack(v, tail);
    } else {
      w, tail := "", s[1..];
    }
  }

  lemma TakenBack(s: string, v: string, tail: string)
    requires s != "" && s[0] != '"' && s[Taken(s)..] == Escape(v) + "\"" + tail
    ensures s == Escape(s[..Taken(s)] + v) + "\"" + tail
  {
    PutBack(s[..Taken(s)], v);
    hide *;
    Sequences.Split(s, Taken(s));
    assert s[..Taken(s)] + (Escape(v) + "\"" + tail) == s[..Taken(s)] + Escape(v) + "\"" + tail;
  }

  /** Nothing but quote marks is written otherwise. */
  lemma PutBack(a: string, v: string)
    requires 0 < |a| <= 2 && forall i | 0 <= i < |a| :: a[i] != '"'
    ensures Escape(a + v) == a + Escape(v)
  {
    hide Escape;
    assert (a + v)[1..] == a[1..] + v;
    EscapeOne(a + v);
    if |a| == 2 {
      assert a[1..] + v == [a[1]] + v && ([a[1]] + v)[1..] == v;
      EscapeOne([a[1]] + v);
      EscapeTwo(a[0], a[1], v);
      assert [a[0], a[1]] == a;
    } else {
      assert a[1..] + v == v && [a[0]] == a;
    }
  }

  lemma ReadQuotedCell(s: string, st: State) returns (c: Cell, tail: string)
    requires AtField(st) && Parse(s, st).Read? && s != "" && s[0] == '"'
    ensures s == CellText(c) + tail && c.Quoted? && Delimits(tail)
  {
    hide Parse, Escape, Delimits, CellText;
    assert s == "\"" + s[1..];
    QuoteOpens(s[1..], st);
    var w;
    w, tail := ReadQuoted(s[1..], st.(inQuotes := true, fieldStart := false));
    c := Quoted(w);
    QuotedText(w, tail);
  }

  lemma ReadCell(s: string, st: State) returns (c: Cell, tail: string)
    requires AtField(st) && Parse(s, st).Read?
    ensures s == CellText(c) + tail && (c.Bare? ==> Plain(c.text)) && Delimits(tail)
    ensures Parse(tail, AfterCell(st, c)).Read?
  {
    hide Parse, CellText, Plain;
    if s != "" && s[0] == '"' {
      c, tail := ReadQuotedCell(s, st);
    } else {
      c, tail := ReadBare(s, st);
    }
    CellIsRead(c, tail, st);
  }

  function BreakAt(tail: string): Break
    requires tail != "" ==> IsBreak(tail[0])
  {
    if tail == "" then End else if tail[0] == '\n' then Lf else if BreakLength(tail) == 2 then CrLf else Cr
  }

  lemma BreakIs(tail: string)
    requires tail != "" ==> IsBreak(tail[0])
    ensures var n := |BreakText(BreakAt(tail))|;
            && n <= |tail| && tail == BreakText(BreakAt(tail)) + tail[n..]
            && (BreakAt(tail).Cr? ==> tail[n..] == "" || tail[n..][0] != '\n')
            && (BreakAt(tail).End? <==> tail == "") && (BreakAt(tail).End? <==> n == 0)
  {
  }

  lemma CommaIsRead(rest: string, st: State)
    requires rest != "" && rest[0] == ',' && !st.inQuotes
    ensures Parse(rest, st) == Parse(rest[1..], EndField(st))
  {
  }

  lemma ReadEnd(c: Cell, rest: string, st: State) returns (end: Break, tail: string)
    requires rest == "" || IsBreak(rest[0])
    requires c.Bare? ==> Plain(c.text)
    requires rest == "" && c == Bare("") ==> st.record != []
    ensures CellText(c) + rest == LineText([c], end) + tail && WellCells([c]) && Ends([c], end, tail, st)
    ensures !end.End? ==> |tail| < |rest|
  {
    hide CellText, LineText, Plain;
    BreakIs(rest);
    end := BreakAt(rest);
    tail := rest[|BreakText(end)|..];
    LineTextLast(c, end, tail);
    hide BreakAt, BreakText;
  }

  lemma {:induction false} ReadLine(s: string, st: State) returns (cells: seq<Cell>, end: Break, tail: string)
    requires AtField(st) && Parse(s, st).Read? && !(s == "" && st.record == [])
    ensures cells != [] && s == LineText(cells, end) + tail && WellCells(cells) && Ends(cells, end, tail, st)
    ensures !end.End? ==> |tail| < |s|
    decreases |s|
  {
    hide Parse, CellText, LineText, Plain;
    var c, rest := ReadCell(s, st);
    if rest != "" && rest[0] == ',' {
      CommaIsRead(rest, AfterCell(st, c));
      var more;
      more, end, tail := ReadLine(rest[1..], EndField(AfterCell(st, c)));
      cells := [c] + more;
      assert cells[1..] == more && rest == "," + rest[1..];
      LineTextMore(cells, end, tail);
    } else {
      EmptyCell();
      end, tail := ReadEnd(c, rest, st);
      cells := [c];
    }
  }

  lemma EmptyCell()
    ensures CellText(Bare("")) == ""
  {
  }

  lemma {:induction false} ReadText(s: string, line: nat) returns (ls: seq<Line>)
    requires Parse(s, Fresh(line)).Read?
    ensures WellSpelled(ls) && Spell(ls) == s
    decreases |s|
  {
    hide Parse, LineText;
    if s == "" {
      ls := [];
    } else {
      var cells, end, tail := ReadLine(s, Fresh(line));
      LineIsRead(cells, end, tail, Fresh(line));
      var more := [];
      if !end.End? {
        more := ReadText(tail, line + CellsBreaks(cells) + 1);
      }
      ls := [Line(cells, end)] + more;
      assert ls[1..] == more;
    }
  }

  /** A text reads exactly when, its byte order mark aside, it is well spelled; it reads
      as the records it spells, each with the line it starts on. */
  lemma ReadsExactlyRfc4180(input: string)
    ensures Parsed(input).Read? <==> exists ls :: WellSpelled(ls) && Spell(ls) == WithoutMark(input)
    ensures forall ls | WellSpelled(ls) && Spell(ls) == WithoutMark(input) ::
              && Parsed(input) == Read(Records(ls), Starts(ls, 1))
              && |Starts(ls, 1)| == |ls|
              && forall i | 0 <= i < |ls| :: Starts(ls, 1)[i] == 1 + Breaks(Spell(ls[..i]))
  {
    hide Parse, Spell, Breaks, Starts, Records;
    forall ls | WellSpelled(ls) && Spell(ls) == WithoutMark(input)
      ensures Parsed(input) == Read(Records(ls), Starts(ls, 1))
      ensures |Starts(ls, 1)| == |ls| && forall i | 0 <= i < |ls| :: Starts(ls, 1)[i] == 1 + Breaks(Spell(ls[..i]))
    {
      TextIsRead(ls, 1);
      StartsLength(ls, 1);
      forall i | 0 <= i < |ls|
        ensures |Starts(ls, 1)| == |ls| && Starts(ls, 1)[i] == 1 + Breaks(Spell(ls[..i]))
      {
        StartsCountBreaks(ls, 1, i);
      }
    }
    if Parsed(input).Read? {
      var ls := ReadText(WithoutMark(input), 1);
    }
  }

  // ---- writing

  /** What JavaScript counts as white space. */
  predicate Space(c: char) {
    || '\t' <= c <= '\r' || c == ' ' || c == '\U{A0}' || c == '\U{1680}' || '\U{2000}' <= c <= '\U{200A}'
    || '\U{2028}' <= c <= '\U{2029}' || c == '\U{202F}' || c == '\U{205F}' || c == '\U{3000}' || c == Bom
  }

  predicate NeedsQuotes(v: string) {
    !Plain(v) || (v != "" && (Space(v[0]) || Space(v[|v| - 1])))
  }

  /** One value, quoted only when it has to be. */
  function CsvValue(v: string): string {
    if NeedsQuotes(v) then "\"" + Escape(v) + "\"" else v
  }

  function Join(parts: seq<string>, sep: string): string {
    if parts == [] then "" else if |parts| == 1 then parts[0] else parts[0] + (sep + Join(parts[1..], sep))
  }

  function Quotes(record: seq<string>): seq<string> {
    seq(|record|, i requires 0 <= i < |record| => CsvValue(record[i]))
  }

  function Rows(records: seq<seq<string>>): seq<string> {
    seq(|records|, i requires 0 <= i < |records| => Join(Quotes(records[i]), ","))
  }

  /** Records to CSV text, CRLF line ends, ending with one. */
  function ToCsv(records: seq<seq<string>>): string {
    Join(Rows(records), "\r\n") + "\r\n"
  }

  // ---- what is written is well spelled

  function CellOf(v: string): Cell {
    if NeedsQuotes(v) then Quoted(v) else Bare(v)
  }

  function CellsOf(record: seq<string>): seq<Cell> {
    seq(|record|, i requires 0 <= i < |record| => CellOf(record[i]))
  }

  function LinesOf(records: seq<seq<string>>): seq<Line> {
    seq(|records|, i requires 0 <= i < |records| => Line(CellsOf(records[i]), CrLf))
  }

  lemma QuotesAreCells(record: seq<string>)
    requires record != []
    ensures Quotes(record)[0] == CellText(CellsOf(record)[0])
    ensures Quotes(record)[1..] == Quotes(record[1..])
    ensures CellsOf(record)[1..] == CellsOf(record[1..])
  {
    hide Escape, NeedsQuotes;
  }

  lemma {:induction false} RowSpelled(record: seq<string>)
    requires record != []
    ensures Join(Quotes(record), ",") + "\r\n" == LineText(CellsOf(record), CrLf)
  {
    assert |Quotes(record)| == |CellsOf(record)| == |record|;
    hide CellText, CsvValue, CellOf, CellsOf, Quotes;
    QuotesAreCells(record);
    if |record| > 1 {
      RowSpelled(record[1..]);
    }
  }

  predicate NoneEmpty(records: seq<seq<string>>) {
    forall i | 0 <= i < |records| :: records[i] != []
  }

  lemma RowsMore(records: seq<seq<string>>)
    requires |records| > 1
    ensures ToCsv(records) == Join(Quotes(records[0]), ",") + "\r\n" + ToCsv(records[1..])
  {
    hide Quotes;
    assert Rows(records)[0] == Join(Quotes(records[0]), ",") && Rows(records)[1..] == Rows(records[1..]);
    hide Rows;
  }

  lemma LinesMore(records: seq<seq<string>>)
    requires records != []
    ensures Spell(LinesOf(records)) == LineText(CellsOf(records[0]), CrLf) + Spell(LinesOf(records[1..]))
  {
    hide LineText, CellsOf;
    assert LinesOf(records)[1..] == LinesOf(records[1..]);
  }

  lemma OneRow(record: seq<string>)
    ensures ToCsv([record]) == Join(Quotes(record), ",") + "\r\n" && Spell(LinesOf([])) == ""
  {
    hide Quotes;
  }

  lemma {:induction false} RecordsSpelled(records: seq<seq<string>>)
    requires records != [] && NoneEmpty(records)
    ensures ToCsv(records) == Spell(LinesOf(records))
  {
    hide ToCsv, LinesOf, Spell, LineText, Quotes, CellsOf, Join;
    RowSpelled(records[0]);
    LinesMore(records);
    if |records| > 1 {
      RowsMore(records);
      RecordsSpelled(records[1..]);
    } else {
      OneRow(records[0]);
      assert records == [records[0]] && records[1..] == [];
    }
  }

  lemma {:induction false} LinesWellSpelled(records: seq<seq<string>>)
    requires NoneEmpty(records)
    ensures WellSpelled(LinesOf(records)) && Records(LinesOf(records)) == records
  {
    hide NeedsQuotes, Spell;
    if records != [] {
      var cells := CellsOf(records[0]);
      LinesWellSpelled(records[1..]);
      assert LinesOf(records)[1..] == LinesOf(records[1..]);
      CellsWell(records[0]);
      RecordsMore(LinesOf(records));
      hide CellsOf, WellCells, Values;
      assert records == [records[0]] + records[1..];
    }
  }

  lemma CellsWell(record: seq<string>)
    ensures WellCells(CellsOf(record)) && Values(CellsOf(record)) == record
  {
  }

  /** A mark at the start of the first value is quoted, so none is taken for the file's. */
  lemma WrittenUnmarked(records: seq<seq<string>>)
    requires records != [] && NoneEmpty(records)
    ensures WithoutMark(ToCsv(records)) == ToCsv(records)
  {
    var row := Quotes(records[0]);
    assert Rows(records)[0] == Join(row, ",");
    assert row[0] == CsvValue(records[0][0]);
    assert row[0] == "" || row[0][0] != Bom;
    hide CsvValue, Quotes;
    assert Join(row, ",") == "" || Join(row, ",")[0] != Bom;
  }

  /** What a file of no records, or of records without values, is written the same as. */
  function Filled(records: seq<seq<string>>): seq<seq<string>> {
    if records == [] then [[""]]
    else seq(|records|, i requires 0 <= i < |records| => if records[i] == [] then [""] else records[i])
  }

  lemma FilledIsWritten(records: seq<seq<string>>)
    ensures ToCsv(Filled(records)) == ToCsv(records)
  {
    assert Join(Quotes([""]), ",") == "" == Join(Quotes([]), ",");
    hide Quotes;
    if records == [] {
      assert Rows([[""]]) == [""];
    } else {
      assert Rows(Filled(records)) == Rows(records);
    }
  }

  /** Whatever is written reads back, a record without values as one empty value. */
  lemma WrittenReadsBack(records: seq<seq<string>>)
    ensures Parsed(ToCsv(records)).Read? && Parsed(ToCsv(records)).records == Filled(records)
  {
    var full := Filled(records);
    FilledIsWritten(records);
    assert full != [] && NoneEmpty(full);
    hide Parse, Filled, ToCsv;
    RecordsSpelled(full);
    LinesWellSpelled(full);
    WrittenUnmarked(full);
    TextIsRead(LinesOf(full), 1);
  }

  /** The round trip: reading what was written gives the records back exactly when there
      is a record and every record has a value. */
  lemma RoundTrip(records: seq<seq<string>>)
    ensures Parsed(ToCsv(records)).Read?
    ensures Parsed(ToCsv(records)).records == records <==> records != [] && NoneEmpty(records)
  {
    WrittenReadsBack(records);
    hide Parsed, ToCsv;
    if records != [] && NoneEmpty(records) {
      assert Filled(records) == records;
    } else if records != [] {
      var i :| 0 <= i < |records| && records[i] == [];
      assert Filled(records)[i] == [""];
    }
  }

  lemma {:induction false} SpelledRecords(ls: seq<Line>)
    requires WellSpelled(ls)
    ensures NoneEmpty(Records(ls))
  {
    if ls != [] {
      SpelledRecords(ls[1..]);
      RecordsMore(ls);
      hide Values, WellSpelled, Records;
    }
  }

  lemma NothingPrinted()
    ensures Parsed("") == Read([], []) && WithoutMark("") == ""
  {
  }

  lemma ReadsAlike(a: string, b: string)
    requires WithoutMark(a) == WithoutMark(b)
    ensures Parsed(a) == Parsed(b)
  {
    hide Parse;
  }

  /** Printing what was read and reading that gives the same records, exactly when the
      text held more than a byte order mark: of nothing one blank record is printed. */
  lemma PrintedAgain(input: string)
    requires Parsed(input).Read?
    ensures Parsed(ToCsv(Parsed(input).records)).Read?
    ensures Parsed(ToCsv(Parsed(input).records)).records == Parsed(input).records <==> WithoutMark(input) != ""
  {
    if WithoutMark(input) == "" {
      hide Parsed, WithoutMark;
      NothingPrinted();
      ReadsAlike(input, "");
      RoundTrip([]);
    } else {
      var ls := ReadText(WithoutMark(input), 1);
      TextIsRead(ls, 1);
      SpelledRecords(ls);
      assert ls != [];
      hide Parse, ToCsv;
      RoundTrip(Records(ls));
    }
  }
}
