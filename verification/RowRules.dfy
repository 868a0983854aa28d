/** The fare and structure rules of a whole stop list, as one pass with running
    variables, and what a list without findings is. */
module RowRules {
  import opened Records
  import opened Findings
  import opened Texts
  import Sequences

  // ---- the pass

  /** The running variables: the open stage, the highest stage number so far, the
      stop served last, whether a served row was seen, and how many were. */
  datatype Scan = Scan(
    openNo: Option<int>,
    openName: string,
    highest: Option<int>,
    previous: Option<Id>,
    firstChecked: bool,
    served: nat)

  const START := Scan(None, "", None, None, false, 0)

  function Text(v: Option<string>): string {
    if v.Some? then v.value else "None"
  }

  function StageText(row: Row, no: int): string {
    Text(row.stop) + "|" + Decimal(no) + "|" + row.stageName
  }

  /** Why a row's stop cannot be called at, if it cannot. */
  function StopProblem(stops: map<Id, Stop>, row: Row): Option<Code> {
    if row.stop.None? || row.stop.value !in stops then Some(UnknownStop) else
      var st := stops[row.stop.value];
      if st.deleted && st.mergedInto.Some? then Some(StopMergedAway)
      else if st.deleted then Some(UnknownStop)
      else if st.locationType == 1 then Some(StopIsStation)
      else None
  }

  function When(b: bool, c: nat, code: Code, about: string): seq<Finding> {
    if b then [Err(c, code, about)] else []
  }

  function NameFindings(row: Row, n: nat, c: nat): seq<Finding> {
    When(Blank(row.stageName), c, StageNameMissing,
         if row.stop.Some? then row.stop.value else if row.markerId.Some? then row.markerId.value else Decimal(n))
  }

  function StopFindings(stops: map<Id, Stop>, row: Row, c: nat): seq<Finding> {
    var p := StopProblem(stops, row);
    if p.None? then [] else [Err(c, p.value, Text(row.stop))]
  }

  function StageFindings(scan: Scan, row: Row, no: int, c: nat): seq<Finding> {
    When(scan.highest.Some? && no < scan.highest.value, c, StageDecreases,
         Text(row.stop) + "|" + (if scan.highest.Some? then Decimal(scan.highest.value) else "") + "->" + Decimal(no))
    + KindFindings(scan, row, no, c)
  }

  function KindFindings(scan: Scan, row: Row, no: int, c: nat): seq<Finding> {
    match row.kind
    case JumpStop =>
      When(scan.openNo == Some(no) && row.stageName != scan.openName, c, JumpWrongStageName, StageText(row, no))
    case IntermediateStop =>
      if scan.openNo.None? then [Err(c, IntermediateBeforeStage, Text(row.stop))]
      else if no != scan.openNo.value then [Err(c, IntermediateWrongStage, StageText(row, no))]
      else When(row.stageName != scan.openName, c, IntermediateWrongStageName, StageText(row, no))
    case _ => []
  }

  function ServedFindings(scan: Scan, row: Row, c: nat): seq<Finding> {
    if !Served(row.kind) then [] else
      When(!scan.firstChecked && row.kind != NewStop, c, FirstNotStageStop, Text(row.stop))
      + When(row.stop.Some? && scan.previous == row.stop, c, RepeatedStop, Text(row.stop))
  }

  function RowFindings(stops: map<Id, Stop>, scan: Scan, row: Row, n: nat, c: nat): seq<Finding> {
    if row.kind.Other? then [Err(c, UnknownStopType, Decimal(n))] else
      NameFindings(row, n, c)
      + (if row.kind == RouteCorrection then
           When(row.marker.None?, c, MarkerWithoutPosition, Text(row.markerId))
         else
           StopFindings(stops, row, c) + FareFindings(scan, row, c))
  }

  function FareFindings(scan: Scan, row: Row, c: nat): seq<Finding> {
    if row.stageNo.None? then [Err(c, MissingStage, Text(row.stop))]
    else StageFindings(scan, row, row.stageNo.value, c) + ServedFindings(scan, row, c)
  }

  function Max(a: Option<int>, b: int): int {
    if a.Some? && a.value > b then a.value else b
  }

  /** The running variables after a row. */
  function Advance(scan: Scan, row: Row): Scan {
    if row.kind.Other? || row.kind == RouteCorrection || row.stageNo.None? then scan else
      var no := row.stageNo.value;
      var opens := row.kind == NewStop
                || (row.kind == JumpStop && !(scan.openNo == Some(no) && row.stageName != scan.openName));
      var staged := scan.(highest := Some(Max(scan.highest, no)),
                          openNo := if opens then Some(no) else scan.openNo,
                          openName := if opens then row.stageName else scan.openName);
      if Served(row.kind) then staged.(previous := row.stop, firstChecked := true, served := scan.served + 1)
      else staged
  }

  function Walk(rows: seq<Row>): Scan {
    if rows == [] then START else Advance(Walk(rows[..|rows| - 1]), rows[|rows| - 1])
  }

  function WalkFindings(stops: map<Id, Stop>, rows: seq<Row>, c: nat): seq<Finding> {
    if rows == [] then [] else
      var front := rows[..|rows| - 1];
      WalkFindings(stops, front, c) + RowFindings(stops, Walk(front), rows[|rows| - 1], |rows|, c)
  }

  function ListFindings(stops: map<Id, Stop>, rows: seq<Row>, c: nat): seq<Finding> {
    if rows == [] then [Err(c, RouteEmpty, "")] else
      WalkFindings(stops, rows, c) + When(Walk(rows).served < 2, c, TooFewStops, "")
  }

  /** The pass with its running variables, as one loop over the rows. */
  method ValidateRows(stops: map<Id, Stop>, rows: seq<Row>, c: nat) returns (out: seq<Finding>)
    ensures out == ListFindings(stops, rows, c)
  {
    if rows == [] {
      return [Err(c, RouteEmpty, "")];
    }
    out := [];
    var scan := START;
    for i := 0 to |rows|
      invariant scan == Walk(rows[..i])
      invariant out == WalkFindings(stops, rows[..i], c)
    {
      assert rows[..i + 1][..i] == rows[..i];
      out := out + RowFindings(stops, scan, rows[i], i + 1, c);
      scan := Advance(scan, rows[i]);
    }
    assert rows[..|rows|] == rows;
    if scan.served < 2 {
      out := out + [Err(c, TooFewStops, "")];
    }
  }

  // ---- references

  predicate Reference(code: Code) {
    code == UnknownStopType || code == UnknownStop || code == StopMergedAway || code == StopIsStation
  }

  /** The row has a known type and, unless it only shapes the map, names an
      existing, undeleted stop that is not a station. */
  predicate Sound(stops: map<Id, Stop>, row: Row) {
    !row.kind.Other? && (row.kind == RouteCorrection || StopProblem(stops, row).None?)
  }

  predicate NoReference(found: seq<Finding>) {
    forall i | 0 <= i < |found| :: !Reference(found[i].key.code)
  }

  predicate AllErrors(found: seq<Finding>) {
    forall i | 0 <= i < |found| :: found[i].level == Error
  }

  lemma StageFindingsNoReference(scan: Scan, row: Row, no: int, c: nat)
    ensures NoReference(StageFindings(scan, row, no, c)) && AllErrors(StageFindings(scan, row, no, c))
  {
    var falls := When(scan.highest.Some? && no < scan.highest.value, c, StageDecreases,
                      Text(row.stop) + "|" + (if scan.highest.Some? then Decimal(scan.highest.value) else "") + "->" + Decimal(no));
    assert NoReference(falls) && AllErrors(falls);
    assert NoReference(KindFindings(scan, row, no, c)) && AllErrors(KindFindings(scan, row, no, c));
    hide KindFindings, NoReference, AllErrors, When;
    JoinedFindings(falls, KindFindings(scan, row, no, c));
  }

  lemma ServedFindingsNoReference(scan: Scan, row: Row, c: nat)
    ensures NoReference(ServedFindings(scan, row, c)) && AllErrors(ServedFindings(scan, row, c))
  {
  }

  lemma FareFindingsNoReference(scan: Scan, row: Row, c: nat)
    ensures NoReference(FareFindings(scan, row, c)) && AllErrors(FareFindings(scan, row, c))
  {
    if row.stageNo.Some? {
      StageFindingsNoReference(scan, row, row.stageNo.value, c);
      ServedFindingsNoReference(scan, row, c);
      JoinedFindings(StageFindings(scan, row, row.stageNo.value, c), ServedFindings(scan, row, c));
    }
  }

  lemma StopFindingsReference(stops: map<Id, Stop>, row: Row, c: nat)
    ensures NoReference(StopFindings(stops, row, c)) <==> StopProblem(stops, row).None?
    ensures AllErrors(StopFindings(stops, row, c))
  {
    if StopProblem(stops, row).Some? {
      assert Reference(StopFindings(stops, row, c)[0].key.code);
    }
  }

  lemma RowReferences(stops: map<Id, Stop>, scan: Scan, row: Row, n: nat, c: nat)
    ensures Sound(stops, row) <==> NoReference(RowFindings(stops, scan, row, n, c))
    ensures AllErrors(RowFindings(stops, scan, row, n, c))
  {
    if row.kind.Other? {
      assert Reference(RowFindings(stops, scan, row, n, c)[0].key.code);
    } else if row.kind != RouteCorrection {
      StopFindingsReference(stops, row, c);
      FareFindingsNoReference(scan, row, c);
      JoinedFindings(StopFindings(stops, row, c), FareFindings(scan, row, c));
      JoinedFindings(NameFindings(row, n, c), StopFindings(stops, row, c) + FareFindings(scan, row, c));
    } else {
      JoinedFindings(NameFindings(row, n, c), When(row.marker.None?, c, MarkerWithoutPosition, Text(row.markerId)));
    }
  }

  predicate AllSound(stops: map<Id, Stop>, rows: seq<Row>) {
    forall i | 0 <= i < |rows| :: Sound(stops, rows[i])
  }

  lemma AllSoundLast(stops: map<Id, Stop>, rows: seq<Row>)
    requires rows != []
    ensures AllSound(stops, rows) <==> AllSound(stops, rows[..|rows| - 1]) && Sound(stops, rows[|rows| - 1])
  {
    assert forall i | 0 <= i < |rows| - 1 :: rows[..|rows| - 1][i] == rows[i];
  }

  /** A list has a reference error exactly when one of its rows is unsound. */
  lemma {:induction false} ListReferences(stops: map<Id, Stop>, rows: seq<Row>, c: nat)
    ensures AllSound(stops, rows) <==> NoReference(WalkFindings(stops, rows, c))
    ensures AllErrors(WalkFindings(stops, rows, c))
  {
    if rows != [] {
      var front, last := rows[..|rows| - 1], rows[|rows| - 1];
      ListReferences(stops, front, c);
      AllSoundLast(stops, rows);
      RowReferences(stops, Walk(front), last, |rows|, c);
      JoinedFindings(WalkFindings(stops, front, c), RowFindings(stops, Walk(front), last, |rows|, c));
    }
  }

  lemma JoinedFindings(a: seq<Finding>, b: seq<Finding>)
    ensures NoReference(a + b) <==> NoReference(a) && NoReference(b)
    ensures AllErrors(a + b) <==> AllErrors(a) && AllErrors(b)
  {
    assert forall i | 0 <= i < |a| :: (a + b)[i] == a[i];
    assert forall i | 0 <= i < |b| :: (a + b)[|a| + i] == b[i];
  }

  // ---- a list without findings

  predicate Opener(kind: StopType) {
    kind == NewStop || kind == JumpStop
  }

  /** The last row that opens a stage, or -1. */
  function LastOpener(rows: seq<Row>): (j: int)
    ensures -1 <= j < |rows| && (j >= 0 ==> Opener(rows[j].kind))
    ensures forall k | j < k < |rows| :: !Opener(rows[k].kind)
  {
    if rows == [] then -1
    else if Opener(rows[|rows| - 1].kind) then |rows| - 1
    else LastOpener(rows[..|rows| - 1])
  }

  /** The last row a passenger is served at, or -1. */
  function LastServed(rows: seq<Row>): (j: int)
    ensures -1 <= j < |rows| && (j >= 0 ==> Served(rows[j].kind))
    ensures forall k | j < k < |rows| :: !Served(rows[k].kind)
  {
    if rows == [] then -1
    else if Served(rows[|rows| - 1].kind) then |rows| - 1
    else LastServed(rows[..|rows| - 1])
  }

  function ServedCount(rows: seq<Row>): nat {
    if rows == [] then 0 else
      ServedCount(rows[..|rows| - 1]) + if Served(rows[|rows| - 1].kind) then 1 else 0
  }

  /** Row i continues the stages of the rows before it: an intermediate stop carries
      the open stage's number and name, and so does a jump stop given its number. */
  predicate InItsStage(rows: seq<Row>, i: nat)
    requires i < |rows|
  {
    var j := LastOpener(rows[..i]);
    && (rows[i].kind == IntermediateStop ==>
          j >= 0 && rows[i].stageNo == rows[j].stageNo && rows[i].stageName == rows[j].stageName)
    && (rows[i].kind == JumpStop && j >= 0 && rows[i].stageNo == rows[j].stageNo ==>
          rows[i].stageName == rows[j].stageName)
  }

  /** The served rows start at a fare stage and never repeat a stop in succession. */
  predicate ServedInTurn(rows: seq<Row>, i: nat)
    requires i < |rows|
  {
    Served(rows[i].kind) ==>
      var j := LastServed(rows[..i]);
      if j < 0 then rows[i].kind == NewStop else rows[i].stop != rows[j].stop
  }

  predicate FareRow(stops: map<Id, Stop>, rows: seq<Row>, i: nat)
    requires i < |rows|
  {
    && Sound(stops, rows[i])
    && !Blank(rows[i].stageName)
    && (if rows[i].kind == RouteCorrection then rows[i].marker.Some? else
          && rows[i].stageNo.Some?
          && (forall j | 0 <= j < i && rows[j].kind != RouteCorrection && rows[j].stageNo.Some? ::
                rows[j].stageNo.value <= rows[i].stageNo.value)
          && InItsStage(rows, i)
          && ServedInTurn(rows, i))
  }

  predicate FareRows(stops: map<Id, Stop>, rows: seq<Row>) {
    forall i | 0 <= i < |rows| :: FareRow(stops, rows, i)
  }

  /** A stop list that decomposes into fare stages. */
  predicate FareList(stops: map<Id, Stop>, rows: seq<Row>) {
    && FareRows(stops, rows)
    && ServedCount(rows) >= 2
  }

  /** The running variables after a clean list say where its stages stand. */
  ghost predicate Tracks(scan: Scan, rows: seq<Row>) {
    TracksOpener(scan, rows) && TracksHighest(scan, rows) && TracksServed(scan, rows)
  }

  predicate TracksOpener(scan: Scan, rows: seq<Row>) {
    var j := LastOpener(rows);
    if j < 0 then scan.openNo.None?
    else rows[j].stageNo.Some? && scan.openNo == rows[j].stageNo && scan.openName == rows[j].stageName
  }

  predicate TracksHighest(scan: Scan, rows: seq<Row>) {
    && (scan.highest.None? <==> forall i | 0 <= i < |rows| :: rows[i].kind == RouteCorrection)
    && (scan.highest.Some? ==>
          && (forall i | 0 <= i < |rows| && rows[i].kind != RouteCorrection && rows[i].stageNo.Some? ::
                rows[i].stageNo.value <= scan.highest.value)
          && (exists i :: 0 <= i < |rows| && rows[i].kind != RouteCorrection && rows[i].stageNo == scan.highest))
  }

  predicate TracksServed(scan: Scan, rows: seq<Row>) {
    && (var j := LastServed(rows);
        if j < 0 then !scan.firstChecked && scan.previous.None? else scan.firstChecked && scan.previous == rows[j].stop)
    && scan.served == ServedCount(rows)
  }

  lemma HighestStep(scan: Scan, front: seq<Row>, last: Row)
    requires TracksHighest(scan, front)
    requires last.kind != RouteCorrection ==> last.stageNo.Some? && !last.kind.Other?
    ensures TracksHighest(Advance(scan, last), front + [last])
  {
    var rows := front + [last];
    assert rows[|front|] == last;
    if scan.highest.Some? {
      var k :| 0 <= k < |front| && front[k].kind != RouteCorrection && front[k].stageNo == scan.highest;
      assert rows[k] == front[k];
    }
  }

  lemma OpenerStep(stops: map<Id, Stop>, scan: Scan, front: seq<Row>, last: Row)
    requires TracksOpener(scan, front) && FareRow(stops, front + [last], |front|)
    ensures TracksOpener(Advance(scan, last), front + [last])
  {
    assert (front + [last])[..|front|] == front;
  }

  lemma ServedStep(stops: map<Id, Stop>, scan: Scan, front: seq<Row>, last: Row)
    requires TracksServed(scan, front) && FareRow(stops, front + [last], |front|)
    ensures TracksServed(Advance(scan, last), front + [last])
  {
    assert (front + [last])[..|front|] == front;
  }

  lemma FareRowNumbered(stops: map<Id, Stop>, rows: seq<Row>, i: nat)
    requires i < |rows| && FareRow(stops, rows, i)
    ensures rows[i].kind != RouteCorrection ==> rows[i].stageNo.Some? && !rows[i].kind.Other?
  {
  }

  lemma TracksStep(stops: map<Id, Stop>, rows: seq<Row>)
    requires rows != [] && Tracks(Walk(rows[..|rows| - 1]), rows[..|rows| - 1])
    requires FareRow(stops, rows, |rows| - 1)
    ensures Tracks(Walk(rows), rows)
  {
    hide FareRow, Advance, TracksOpener, TracksHighest, TracksServed;
    var front, last := rows[..|rows| - 1], rows[|rows| - 1];
    Sequences.FrontAndLast(rows);
    FareRowNumbered(stops, rows, |front|);
    OpenerStep(stops, Walk(front), front, last);
    HighestStep(Walk(front), front, last);
    ServedStep(stops, Walk(front), front, last);
  }

  lemma StageExact(rows: seq<Row>, scan: Scan, c: nat)
    requires rows != [] && rows[|rows| - 1].stageNo.Some?
    requires Tracks(scan, rows[..|rows| - 1])
    ensures StageFindings(scan, rows[|rows| - 1], rows[|rows| - 1].stageNo.value, c) == []
       <==> (forall j | 0 <= j < |rows| - 1 && rows[j].kind != RouteCorrection && rows[j].stageNo.Some? ::
               rows[j].stageNo.value <= rows[|rows| - 1].stageNo.value)
            && InItsStage(rows, |rows| - 1)
  {
    hide Decimal, StageText, Text;
    var i := |rows| - 1;
    var no := rows[i].stageNo.value;
    assert forall k | 0 <= k < i :: rows[..i][k] == rows[k];
    if scan.highest.Some? {
      var k :| 0 <= k < i && rows[k].kind != RouteCorrection && rows[k].stageNo == scan.highest;
      assert no < scan.highest.value ==> rows[k].stageNo.value > no;
    }
  }

  lemma ServedExact(rows: seq<Row>, scan: Scan, c: nat)
    requires rows != [] && rows[|rows| - 1].stop.Some?
    requires Tracks(scan, rows[..|rows| - 1])
    ensures ServedFindings(scan, rows[|rows| - 1], c) == [] <==> ServedInTurn(rows, |rows| - 1)
  {
    assert forall k | 0 <= k < |rows| - 1 :: rows[..|rows| - 1][k] == rows[k];
  }

  /** One row is without findings exactly when it continues the list before it. */
  lemma {:induction false} RowExact(stops: map<Id, Stop>, rows: seq<Row>, c: nat)
    requires rows != [] && Tracks(Walk(rows[..|rows| - 1]), rows[..|rows| - 1])
    ensures RowFindings(stops, Walk(rows[..|rows| - 1]), rows[|rows| - 1], |rows|, c) == []
       <==> FareRow(stops, rows, |rows| - 1)
  {
    var last, scan := rows[|rows| - 1], Walk(rows[..|rows| - 1]);
    if last.kind != RouteCorrection && last.stageNo.Some? && last.stop.Some? {
      StageExact(rows, scan, c);
      ServedExact(rows, scan, c);
    }
  }

  lemma FareRowsLast(stops: map<Id, Stop>, rows: seq<Row>)
    requires rows != []
    ensures FareRows(stops, rows)
       <==> FareRows(stops, rows[..|rows| - 1]) && FareRow(stops, rows, |rows| - 1)
  {
    var n := |rows| - 1;
    var front := rows[..n];
    forall i | 0 <= i < n
      ensures FareRow(stops, rows, i) <==> FareRow(stops, front, i)
    {
      assert rows[..i] == front[..i] && rows[i] == front[i];
      assert forall k | 0 <= k < i :: front[k] == rows[k];
    }
  }

  lemma {:induction false} WalkExact(stops: map<Id, Stop>, rows: seq<Row>, c: nat)
    ensures WalkFindings(stops, rows, c) == [] <==> FareRows(stops, rows)
    ensures WalkFindings(stops, rows, c) == [] ==> Tracks(Walk(rows), rows)
  {
    if rows != [] {
      var front := rows[..|rows| - 1];
      WalkExact(stops, front, c);
      FareRowsLast(stops, rows);
      if WalkFindings(stops, front, c) == [] {
        RowExact(stops, rows, c);
        if FareRow(stops, rows, |rows| - 1) {
          TracksStep(stops, rows);
        }
      }
    }
  }

  /** The pass finds nothing exactly in the lists that decompose into fare stages. */
  lemma CleanListIsFareList(stops: map<Id, Stop>, rows: seq<Row>, c: nat)
    ensures ListFindings(stops, rows, c) == [] <==> FareList(stops, rows)
  {
    WalkExact(stops, rows, c);
  }
}
