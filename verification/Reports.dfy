/** What each finding about a stop list means, in terms of its rows alone: of every key
    the pass reports as many errors as there are rows with that problem. */
module Reports {
  import opened Records
  import opened Findings
  import opened Texts
  import opened RowRules
  import Sequences

  /** A row that runs in a fare stage, whichever it is. */
  predicate Staged(row: Row) {
    !row.kind.Other? && row.kind != RouteCorrection && row.stageNo.Some?
  }

  predicate Called(row: Row) {
    Staged(row) && Served(row.kind)
  }

  /** The row whose stage is open at the end: the last stage stop, or a jump stop that
      brought a number of its own; -1 where none was opened. */
  function OpenedAt(rows: seq<Row>): (j: int)
    ensures -1 <= j < |rows| && (j >= 0 ==> Staged(rows[j]))
  {
    if rows == [] then -1 else
      var j, last := OpenedAt(rows[..|rows| - 1]), rows[|rows| - 1];
      if Staged(last) && (last.kind == NewStop || (last.kind == JumpStop && (j < 0 || last.stageNo != rows[j].stageNo)))
      then |rows| - 1 else j
  }

  /** The row called at last, or -1. */
  function CalledAt(rows: seq<Row>): (j: int)
    ensures -1 <= j < |rows| && (j >= 0 ==> Called(rows[j]))
    ensures forall k | j < k < |rows| :: !Called(rows[k])
  {
    if rows == [] then -1
    else if Called(rows[|rows| - 1]) then |rows| - 1
    else CalledAt(rows[..|rows| - 1])
  }

  /** The row has the highest stage number of all. */
  predicate Highest(rows: seq<Row>, h: nat) {
    h < |rows| && Staged(rows[h])
    && forall k | 0 <= k < |rows| && Staged(rows[k]) :: rows[k].stageNo.value <= rows[h].stageNo.value
  }

  /** A text key: the stop, the number and the name the row carries. */
  predicate AboutStage(row: Row, about: string) {
    row.stageNo.Some? && about == Text(row.stop) + "|" + Decimal(row.stageNo.value) + "|" + row.stageName
  }

  /** A row after the given ones has the problem of the key. */
  predicate Has(stops: map<Id, Stop>, before: seq<Row>, row: Row, key: Key) {
    if row.kind.Other? then key == Key(UnknownStopType, Decimal(|before| + 1))
    else if key.code == StageNameMissing then
      Blank(row.stageName)
      && key.about == (if row.stop.Some? then row.stop.value
                       else if row.markerId.Some? then row.markerId.value
                       else Decimal(|before| + 1))
    else if row.kind == RouteCorrection then
      row.marker.None? && key == Key(MarkerWithoutPosition, Text(row.markerId))
    else if Reference(key.code) then
      key.about == Text(row.stop) && HasNoStop(stops, row, key.code)
    else if row.stageNo.None? then key == Key(MissingStage, Text(row.stop))
    else HasStage(before, row, key) || HasCall(before, row, key)
  }

  /** There is no stop to call at: none at all, one merged away, or a station. */
  predicate HasNoStop(stops: map<Id, Stop>, row: Row, code: Code) {
    var known := row.stop.Some? && row.stop.value in stops;
    match code
    case UnknownStop => !known || (stops[row.stop.value].deleted && stops[row.stop.value].mergedInto.None?)
    case StopMergedAway => known && stops[row.stop.value].deleted && stops[row.stop.value].mergedInto.Some?
    case StopIsStation => known && !stops[row.stop.value].deleted && stops[row.stop.value].locationType == 1
    case _ => false
  }

  predicate HasStage(before: seq<Row>, row: Row, key: Key)
    requires Staged(row)
  {
    var j := OpenedAt(before);
    match key.code
    case StageDecreases =>
      exists h :: 0 <= h < |before| && Highest(before, h) && row.stageNo.value < before[h].stageNo.value
                  && key.about == Text(row.stop) + "|" + Decimal(before[h].stageNo.value) + "->" + Decimal(row.stageNo.value)
    case JumpWrongStageName =>
      row.kind == JumpStop && j >= 0 && row.stageNo == before[j].stageNo && row.stageName != before[j].stageName
      && AboutStage(row, key.about)
    case IntermediateBeforeStage => row.kind == IntermediateStop && j < 0 && key.about == Text(row.stop)
    case IntermediateWrongStage =>
      row.kind == IntermediateStop && j >= 0 && row.stageNo != before[j].stageNo && AboutStage(row, key.about)
    case IntermediateWrongStageName =>
      row.kind == IntermediateStop && j >= 0 && row.stageNo == before[j].stageNo && row.stageName != before[j].stageName
      && AboutStage(row, key.about)
    case _ => false
  }

  predicate HasCall(before: seq<Row>, row: Row, key: Key)
    requires Staged(row)
  {
    var j := CalledAt(before);
    && Served(row.kind)
    && key.about == Text(row.stop)
    && match key.code
       case FirstNotStageStop => j < 0 && row.kind != NewStop
       case RepeatedStop => j >= 0 && row.stop.Some? && row.stop == before[j].stop
       case _ => false
  }

  /** The rows with the problem of the key. */
  function Having(stops: map<Id, Stop>, rows: seq<Row>, key: Key): set<nat> {
    set i: nat | i < |rows| && Has(stops, rows[..i], rows[i], key)
  }

  /** The rows where a passenger is served. */
  function Calls(rows: seq<Row>): set<nat> {
    set i: nat | i < |rows| && Called(rows[i])
  }

  // ---- counting errors

  lemma {:induction false} ErrorsAdd(a: seq<Finding>, b: seq<Finding>, key: Key)
    ensures Errors(a + b, key) == Errors(a, key) + Errors(b, key)
  {
    if a == [] {
      assert a + b == b;
    } else {
      assert (a + b)[1..] == a[1..] + b;
      ErrorsAdd(a[1..], b, key);
    }
  }

  function One(b: bool): nat {
    if b then 1 else 0
  }

  lemma ErrorsWhen(b: bool, c: nat, code: Code, about: string, key: Key)
    ensures Errors(When(b, c, code, about), key) == One(b && key == Key(code, about))
  {
    assert [Err(c, code, about)][1..] == [];
    assert Errors([], key) == 0;
  }

  lemma ErrorOne(c: nat, code: Code, about: string, key: Key)
    ensures Errors([Err(c, code, about)], key) == One(key == Key(code, about))
  {
    ErrorsWhen(true, c, code, about, key);
  }

  // ---- the running variables

  predicate OpenIs(scan: Scan, rows: seq<Row>) {
    var j := OpenedAt(rows);
    if j < 0 then scan.openNo.None?
    else scan.openNo == rows[j].stageNo && scan.openName == rows[j].stageName
  }

  predicate HighestIs(scan: Scan, rows: seq<Row>) {
    if scan.highest.None? then forall k | 0 <= k < |rows| :: !Staged(rows[k])
    else exists h :: 0 <= h < |rows| && Highest(rows, h) && rows[h].stageNo == scan.highest
  }

  predicate CalledIs(scan: Scan, rows: seq<Row>) {
    var j := CalledAt(rows);
    && scan.firstChecked == (j >= 0)
    && scan.previous == if j < 0 then None else rows[j].stop
  }

  lemma HighestStays(front: seq<Row>, last: Row, h: nat)
    requires Highest(front, h) && (Staged(last) ==> last.stageNo.value <= front[h].stageNo.value)
    ensures Highest(front + [last], h)
  {
    assert forall k | 0 <= k < |front| :: (front + [last])[k] == front[k];
  }

  lemma HighestIsLast(front: seq<Row>, last: Row)
    requires Staged(last)
    requires forall k | 0 <= k < |front| && Staged(front[k]) :: front[k].stageNo.value <= last.stageNo.value
    ensures Highest(front + [last], |front|)
  {
    assert forall k | 0 <= k < |front| :: (front + [last])[k] == front[k];
  }

  lemma HighestMoves(scan: Scan, front: seq<Row>, last: Row)
    requires HighestIs(scan, front)
    ensures HighestIs(Advance(scan, last), front + [last])
  {
    var rows := front + [last];
    if scan.highest.Some? {
      var h: nat :| h < |front| && Highest(front, h) && front[h].stageNo == scan.highest;
      if Staged(last) && last.stageNo.value > scan.highest.value {
        HighestIsLast(front, last);
      } else {
        HighestStays(front, last, h);
        assert rows[h] == front[h];
      }
    } else if Staged(last) {
      HighestIsLast(front, last);
    } else {
      assert forall k | 0 <= k < |front| :: rows[k] == front[k];
    }
  }

  lemma OpenMoves(scan: Scan, front: seq<Row>, last: Row)
    requires OpenIs(scan, front)
    ensures OpenIs(Advance(scan, last), front + [last])
  {
    assert (front + [last])[..|front|] == front;
  }

  lemma CalledMoves(scan: Scan, front: seq<Row>, last: Row)
    requires CalledIs(scan, front)
    ensures CalledIs(Advance(scan, last), front + [last])
  {
    assert (front + [last])[..|front|] == front;
  }

  lemma {:induction false} WalkIs(rows: seq<Row>)
    ensures OpenIs(Walk(rows), rows) && HighestIs(Walk(rows), rows) && CalledIs(Walk(rows), rows)
  {
    if rows != [] {
      hide OpenIs, HighestIs, CalledIs, Advance;
      var front, last := rows[..|rows| - 1], rows[|rows| - 1];
      Sequences.FrontAndLast(rows);
      WalkIs(front);
      OpenMoves(Walk(front), front, last);
      HighestMoves(Walk(front), front, last);
      CalledMoves(Walk(front), front, last);
    }
  }

  lemma CallsGrow(front: seq<Row>, last: Row)
    ensures |Calls(front + [last])| == |Calls(front)| + One(Called(last))
  {
    var rows, n: nat := front + [last], |front|;
    assert rows[n] == last && forall i: nat | i < n :: rows[i] == front[i];
    assert Calls(rows) == if Called(last) then Calls(front) + {n} else Calls(front);
  }

  lemma {:induction false} ServedIs(rows: seq<Row>)
    ensures Walk(rows).served == |Calls(rows)|
  {
    if rows == [] {
      assert Calls(rows) == {};
    } else {
      Sequences.FrontAndLast(rows);
      ServedIs(rows[..|rows| - 1]);
      CallsGrow(rows[..|rows| - 1], rows[|rows| - 1]);
    }
  }

  // ---- one row

  lemma DecreaseIs(scan: Scan, before: seq<Row>, row: Row, about: string)
    requires HighestIs(scan, before) && Staged(row)
    ensures HasStage(before, row, Key(StageDecreases, about))
       <==> scan.highest.Some? && row.stageNo.value < scan.highest.value
            && about == Text(row.stop) + "|" + Decimal(scan.highest.value) + "->" + Decimal(row.stageNo.value)
  {
    hide Text, Decimal;
    if scan.highest.Some? {
      var h: nat :| Highest(before, h) && before[h].stageNo == scan.highest;
    }
  }

  lemma KindErrors(scan: Scan, before: seq<Row>, row: Row, c: nat, key: Key)
    requires OpenIs(scan, before) && Staged(row)
    ensures Errors(KindFindings(scan, row, row.stageNo.value, c), key)
         == One(key.code != StageDecreases && HasStage(before, row, key))
  {
    hide Errors, Text, Decimal;
    var no := row.stageNo.value;
    ErrorsWhen(scan.openNo == Some(no) && row.stageName != scan.openName, c, JumpWrongStageName, StageText(row, no), key);
    ErrorOne(c, IntermediateBeforeStage, Text(row.stop), key);
    ErrorOne(c, IntermediateWrongStage, StageText(row, no), key);
    ErrorsWhen(row.stageName != scan.openName, c, IntermediateWrongStageName, StageText(row, no), key);
    NoErrors(key);
  }

  lemma NoErrors(key: Key)
    ensures Errors([], key) == 0
  {
  }

  lemma StageErrors(scan: Scan, before: seq<Row>, row: Row, c: nat, key: Key)
    requires OpenIs(scan, before) && HighestIs(scan, before) && Staged(row)
    ensures Errors(StageFindings(scan, row, row.stageNo.value, c), key) == One(HasStage(before, row, key))
  {
    var no := row.stageNo.value;
    var falls := scan.highest.Some? && no < scan.highest.value;
    var about := Text(row.stop) + "|" + (if scan.highest.Some? then Decimal(scan.highest.value) else "") + "->" + Decimal(no);
    DecreaseIs(scan, before, row, key.about);
    KindErrors(scan, before, row, c, key);
    ErrorsWhen(falls, c, StageDecreases, about, key);
    ErrorsAdd(When(falls, c, StageDecreases, about), KindFindings(scan, row, no, c), key);
    hide HasStage, Errors, KindFindings, When, OpenIs, HighestIs, Text, Decimal;
    assert key.code == StageDecreases ==> key == Key(StageDecreases, key.about);
  }

  lemma CallErrors(scan: Scan, before: seq<Row>, row: Row, c: nat, key: Key)
    requires CalledIs(scan, before) && Staged(row)
    ensures Errors(ServedFindings(scan, row, c), key) == One(HasCall(before, row, key))
  {
    hide Errors, Text;
    var first := !scan.firstChecked && row.kind != NewStop;
    var again := row.stop.Some? && scan.previous == row.stop;
    NoErrors(key);
    ErrorsWhen(first, c, FirstNotStageStop, Text(row.stop), key);
    ErrorsWhen(again, c, RepeatedStop, Text(row.stop), key);
    ErrorsAdd(When(first, c, FirstNotStageStop, Text(row.stop)), When(again, c, RepeatedStop, Text(row.stop)), key);
  }

  lemma StopErrors(stops: map<Id, Stop>, row: Row, c: nat, key: Key)
    requires !row.kind.Other?
    ensures Errors(StopFindings(stops, row, c), key)
         == One(Reference(key.code) && key.about == Text(row.stop) && HasNoStop(stops, row, key.code))
  {
    hide Errors, Text;
    NoErrors(key);
    var p := StopProblem(stops, row);
    if p.Some? {
      ErrorOne(c, p.value, Text(row.stop), key);
    }
  }

  lemma FareErrors(scan: Scan, before: seq<Row>, row: Row, c: nat, key: Key)
    requires OpenIs(scan, before) && HighestIs(scan, before) && CalledIs(scan, before)
    requires !row.kind.Other? && row.kind != RouteCorrection
    ensures Errors(FareFindings(scan, row, c), key)
         == One(if row.stageNo.None? then key == Key(MissingStage, Text(row.stop))
                else HasStage(before, row, key) || HasCall(before, row, key))
  {
    if row.stageNo.None? {
      ErrorOne(c, MissingStage, Text(row.stop), key);
    } else {
      StageErrors(scan, before, row, c, key);
      CallErrors(scan, before, row, c, key);
      NotBoth(before, row, key);
      ErrorsAdd(StageFindings(scan, row, row.stageNo.value, c), ServedFindings(scan, row, c), key);
      hide HasStage, HasCall, Errors, StageFindings, ServedFindings, OpenIs, HighestIs, CalledIs;
    }
  }

  lemma NotBoth(before: seq<Row>, row: Row, key: Key)
    requires Staged(row)
    ensures !(HasStage(before, row, key) && HasCall(before, row, key))
    ensures HasStage(before, row, key) || HasCall(before, row, key) ==>
              !Reference(key.code) && key.code != StageNameMissing && key.code != MissingStage
  {
  }

  lemma RowErrors(stops: map<Id, Stop>, before: seq<Row>, row: Row, c: nat, key: Key)
    ensures Errors(RowFindings(stops, Walk(before), row, |before| + 1, c), key) == One(Has(stops, before, row, key))
  {
    var scan, n := Walk(before), |before| + 1;
    WalkIs(before);
    if row.kind.Other? {
      ErrorOne(c, UnknownStopType, Decimal(n), key);
    } else {
      NameErrors(row, n, c, key);
      if row.kind == RouteCorrection {
        ErrorsWhen(row.marker.None?, c, MarkerWithoutPosition, Text(row.markerId), key);
        hide Errors, Text, Decimal, When, Blank;
        ErrorsAdd(NameFindings(row, n, c), When(row.marker.None?, c, MarkerWithoutPosition, Text(row.markerId)), key);
      } else {
        StopErrors(stops, row, c, key);
        FareErrors(scan, before, row, c, key);
        StopNotFare(before, row, key);
        hide Errors, Text, Decimal, HasStage, HasCall, HasNoStop, NameFindings, StopFindings, FareFindings, Blank, OpenIs, HighestIs, CalledIs;
        ErrorsAdd(StopFindings(stops, row, c), FareFindings(scan, row, c), key);
        ErrorsAdd(NameFindings(row, n, c), StopFindings(stops, row, c) + FareFindings(scan, row, c), key);
      }
    }
  }

  lemma NameErrors(row: Row, n: nat, c: nat, key: Key)
    ensures Errors(NameFindings(row, n, c), key)
         == One(key.code == StageNameMissing && Blank(row.stageName)
                && key.about == (if row.stop.Some? then row.stop.value
                                 else if row.markerId.Some? then row.markerId.value
                                 else Decimal(n)))
  {
    ErrorsWhen(Blank(row.stageName), c, StageNameMissing,
               if row.stop.Some? then row.stop.value else if row.markerId.Some? then row.markerId.value else Decimal(n), key);
  }

  lemma StopNotFare(before: seq<Row>, row: Row, key: Key)
    ensures Reference(key.code) ==> key.code != StageNameMissing && key.code != MissingStage
    ensures Staged(row) && (HasStage(before, row, key) || HasCall(before, row, key)) ==>
              !Reference(key.code) && key.code != StageNameMissing && key.code != MissingStage
  {
    if Staged(row) {
      NotBoth(before, row, key);
    }
  }

  lemma HavingGrows(stops: map<Id, Stop>, front: seq<Row>, last: Row, key: Key)
    ensures |Having(stops, front + [last], key)| == |Having(stops, front, key)| + One(Has(stops, front, last, key))
  {
    hide Has;
    var rows, n: nat := front + [last], |front|;
    assert rows[n] == last && rows[..n] == front;
    assert forall i: nat | i < n :: rows[i] == front[i] && rows[..i] == front[..i];
    assert Having(stops, rows, key) == if Has(stops, front, last, key) then Having(stops, front, key) + {n} else Having(stops, front, key);
  }

  /** Of every key the pass reports as many errors as rows have that problem. */
  lemma {:induction false} WalkReports(stops: map<Id, Stop>, rows: seq<Row>, c: nat, key: Key)
    ensures Errors(WalkFindings(stops, rows, c), key) == |Having(stops, rows, key)|
  {
    if rows == [] {
      assert Having(stops, rows, key) == {};
    } else {
      hide Has, Having, Errors, RowFindings, Walk;
      var front, last := rows[..|rows| - 1], rows[|rows| - 1];
      Sequences.FrontAndLast(rows);
      WalkReports(stops, front, c, key);
      RowErrors(stops, front, last, c, key);
      HavingGrows(stops, front, last, key);
      ErrorsAdd(WalkFindings(stops, front, c), RowFindings(stops, Walk(front), last, |rows|, c), key);
    }
  }

  lemma NoListProblem(stops: map<Id, Stop>, rows: seq<Row>, key: Key)
    requires key.code == RouteEmpty || key.code == TooFewStops
    ensures Having(stops, rows, key) == {}
  {
  }

  /** So a list has just the errors its rows have, one that it is empty, or one that it
      serves passengers at fewer than two rows. */
  lemma ListReports(stops: map<Id, Stop>, rows: seq<Row>, c: nat, key: Key)
    ensures Errors(ListFindings(stops, rows, c), key)
         == if key == Key(RouteEmpty, "") then One(rows == [])
            else if key == Key(TooFewStops, "") then One(rows != [] && |Calls(rows)| < 2)
            else |Having(stops, rows, key)|
  {
    if key.code == RouteEmpty || key.code == TooFewStops {
      NoListProblem(stops, rows, key);
    }
    if rows == [] {
      assert Having(stops, rows, key) == {};
      ErrorOne(c, RouteEmpty, "", key);
    } else {
      WalkReports(stops, rows, c, key);
      ServedIs(rows);
      ErrorsWhen(Walk(rows).served < 2, c, TooFewStops, "", key);
      hide Errors, Having, WalkFindings, Walk, When;
      ErrorsAdd(WalkFindings(stops, rows, c), When(Walk(rows).served < 2, c, TooFewStops, ""), key);
    }
  }

  // ---- keys tell problems apart

  lemma {:induction false} DigitsRead(n: nat)
    ensures Digits(n) != "" && forall i | 0 <= i < |Digits(n)| :: '0' <= Digits(n)[i] <= '9'
  {
    if n >= 10 {
      DigitsRead(n / 10);
    }
  }

  lemma {:induction false} DigitsDiffer(m: nat, n: nat)
    requires Digits(m) == Digits(n)
    ensures m == n
  {
    DigitsRead(m);
    DigitsRead(n);
    var last := |Digits(m)| - 1;
    assert Digits(m)[last] == '0' + (m % 10) as char && Digits(n)[last] == '0' + (n % 10) as char;
    assert m % 10 == n % 10;
    if m >= 10 || n >= 10 {
      DigitsRead(m / 10);
      DigitsRead(n / 10);
      assert m >= 10 && n >= 10 && Digits(m)[..last] == Digits(m / 10) && Digits(n)[..last] == Digits(n / 10);
      DigitsDiffer(m / 10, n / 10);
    }
  }

  lemma DecimalsDiffer(m: int, n: int)
    requires Decimal(m) == Decimal(n)
    ensures m == n
  {
    hide Digits;
    DigitsRead(if m < 0 then -m else m);
    DigitsRead(if n < 0 then -n else n);
    if m < 0 {
      assert Decimal(m)[1..] == Digits(-m) && Decimal(m)[0] == '-';
      assert n < 0;
      assert Decimal(n)[1..] == Digits(-n);
      DigitsDiffer(-m, -n);
    } else {
      assert Decimal(m)[0] != '-';
      assert n >= 0;
      DigitsDiffer(m, n);
    }
  }

  lemma NoBarInDecimal(n: int)
    ensures '|' !in Decimal(n)
  {
    DigitsRead(if n < 0 then -n else n);
  }

  lemma SplitAtBar(a: string, b: string, x: string, y: string)
    requires '|' !in a && '|' !in b && a + "|" + x == b + "|" + y
    ensures a == b && x == y
  {
    var s := a + "|" + x;
    assert s[|a|] == '|' && s[|b|] == '|';
    assert forall i | 0 <= i < |a| :: s[i] == a[i];
    assert forall i | 0 <= i < |b| :: s[i] == b[i];
    assert |a| == |b|;
    assert s[..|a|] == a && s[..|b|] == b && s[|a| + 1..] == x && s[|b| + 1..] == y;
  }

  /** Two rows are about the same stage key only with the same stop, number and name,
      where no bar is written in a stop's id. */
  lemma StageKeysDiffer(a: Row, b: Row, about: string)
    requires AboutStage(a, about) && AboutStage(b, about) && '|' !in Text(a.stop) && '|' !in Text(b.stop)
    ensures Text(a.stop) == Text(b.stop) && a.stageNo == b.stageNo && a.stageName == b.stageName
  {
    hide Text, Decimal;
    var m, n := a.stageNo.value, b.stageNo.value;
    assert about == Text(a.stop) + "|" + (Decimal(m) + "|" + a.stageName);
    assert about == Text(b.stop) + "|" + (Decimal(n) + "|" + b.stageName);
    SplitAtBar(Text(a.stop), Text(b.stop), Decimal(m) + "|" + a.stageName, Decimal(n) + "|" + b.stageName);
    NoBarInDecimal(m);
    NoBarInDecimal(n);
    SplitAtBar(Decimal(m), Decimal(n), a.stageName, b.stageName);
    DecimalsDiffer(m, n);
  }
}
