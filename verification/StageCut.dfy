/** Fare stages of a route: the rows cut where the stage number changes, the order
    routes sort in, and what every spelling of a name is compared as. */
module StageCut {
  import opened Records
  import opened Texts
  import Ordering
  import Sequences

  datatype Marker = Marker(id: Option<string>, name: Option<string>, position: Option<Position>)

  /** What a stage keeps of a row: the stop or the marker, and how it is served. */
  datatype StageStop = StageStop(stop: Option<Id>, kind: StopType, override: Option<string>, marker: Marker)

  datatype StageRow = StageRow(stageNo: int, stageName: string, at: StageStop)

  /** A stretch of a route's rows that is one fare stage. */
  datatype Stretch = Stretch(route: Id, position: nat, stageNo: int, name: string, rows: seq<StageRow>)

  // ---- names

  /** The name less the spaces around it: nothing else is folded. */
  function Canon(name: string): string {
    Stripped(name)
  }

  /** A canonical name is its own. */
  lemma CanonTwice(name: string)
    ensures Canon(Canon(name)) == Canon(name)
  {
    StrippedTwice(name);
  }

  // ---- the cut

  /** One more row: it goes on the last stretch, or starts one where the number changes. */
  function Add(parts: seq<seq<StageRow>>, row: StageRow): seq<seq<StageRow>> {
    if parts != [] && Numbered(parts[|parts| - 1], row.stageNo) then
      parts[..|parts| - 1] + [parts[|parts| - 1] + [row]]
    else parts + [[row]]
  }

  predicate Numbered(part: seq<StageRow>, no: int) {
    part != [] && part[0].stageNo == no
  }

  /** The rows in stretches of one stage number each. */
  function Cut(rows: seq<StageRow>): seq<seq<StageRow>> {
    if rows == [] then [] else Add(Cut(rows[..|rows| - 1]), rows[|rows| - 1])
  }

  function Joined(parts: seq<seq<StageRow>>): seq<StageRow> {
    if parts == [] then [] else Joined(parts[..|parts| - 1]) + parts[|parts| - 1]
  }

  predicate OneNumber(part: seq<StageRow>) {
    part != [] && forall i | 0 <= i < |part| :: part[i].stageNo == part[0].stageNo
  }

  predicate Apart(a: seq<StageRow>, b: seq<StageRow>) {
    a != [] && b != [] && a[0].stageNo != b[0].stageNo
  }

  /** Stretches of one number each, none empty, neighbours with different numbers. */
  predicate WellCut(parts: seq<seq<StageRow>>) {
    && (forall k | 0 <= k < |parts| :: OneNumber(parts[k]))
    && (forall k | 0 <= k < |parts| - 1 :: Apart(parts[k], parts[k + 1]))
  }

  lemma WellCutFront(parts: seq<seq<StageRow>>)
    requires WellCut(parts) && parts != []
    ensures WellCut(parts[..|parts| - 1])
  {
    var front := parts[..|parts| - 1];
    assert forall k | 0 <= k < |front| :: front[k] == parts[k];
  }

  lemma AddKeepsCut(parts: seq<seq<StageRow>>, row: StageRow)
    requires WellCut(parts)
    ensures WellCut(Add(parts, row)) && Joined(Add(parts, row)) == Joined(parts) + [row]
  {
    var m, now := |parts| - 1, Add(parts, row);
    if parts != [] && Numbered(parts[m], row.stageNo) {
      assert now[..m] == parts[..m] && now[m] == parts[m] + [row];
      assert OneNumber(parts[m]);
      assert OneNumber(now[m]);
      assert forall k | 0 <= k < m :: now[k] == parts[k];
    } else {
      assert now[..|parts|] == parts;
      assert OneNumber([row]);
      assert parts != [] ==> OneNumber(parts[m]);
    }
  }

  /** The cut keeps every row in place and cuts exactly where the number changes. */
  lemma {:induction false} CutIsWellCut(rows: seq<StageRow>)
    ensures WellCut(Cut(rows)) && Joined(Cut(rows)) == rows
  {
    if rows != [] {
      hide Add, WellCut, Joined;
      CutIsWellCut(rows[..|rows| - 1]);
      AddKeepsCut(Cut(rows[..|rows| - 1]), rows[|rows| - 1]);
      Sequences.FrontAndLast(rows);
    }
  }

  lemma JoinedLast(parts: seq<seq<StageRow>>)
    requires parts != []
    ensures Joined(parts) == Joined(parts[..|parts| - 1]) + parts[|parts| - 1]
  {
  }

  lemma {:induction false} JoinedParts(a: seq<seq<StageRow>>, b: seq<seq<StageRow>>)
    ensures Joined(a + b) == Joined(a) + Joined(b)
  {
    if b == [] {
      assert a + b == a;
      assert Joined(b) == [];
    } else {
      hide Joined;
      JoinedParts(a, b[..|b| - 1]);
      Sequences.FrontOfSum(a, b);
      JoinedLast(b);
      JoinedLast(a + b);
    }
  }

  /** The parts with the last row taken off. */
  function Shorter(parts: seq<seq<StageRow>>): seq<seq<StageRow>>
    requires WellCut(parts) && parts != []
  {
    var m := |parts| - 1;
    if |parts[m]| == 1 then parts[..m] else parts[..m] + [parts[m][..|parts[m]| - 1]]
  }

  predicate TakesBack(parts: seq<seq<StageRow>>, less: seq<seq<StageRow>>, row: StageRow) {
    WellCut(less) && Add(less, row) == parts && Joined(parts) == Joined(less) + [row]
  }

  lemma LastAlone(parts: seq<seq<StageRow>>, row: StageRow)
    requires WellCut(parts) && parts != [] && parts[|parts| - 1] == [row]
    ensures TakesBack(parts, parts[..|parts| - 1], row)
  {
    var m := |parts| - 1;
    WellCutFront(parts);
    assert parts == parts[..m] + [[row]];
    assert m > 0 ==> Apart(parts[m - 1], parts[m]);
  }

  lemma LastShortened(parts: seq<seq<StageRow>>, front: seq<StageRow>, row: StageRow)
    requires WellCut(parts) && parts != [] && parts[|parts| - 1] == front + [row] && front != []
    ensures WellCut(parts[..|parts| - 1] + [front])
    ensures front[0].stageNo == row.stageNo
  {
    var m := |parts| - 1;
    var less := parts[..m] + [front];
    assert OneNumber(parts[m]) && parts[m][|front|] == row;
    assert forall i | 0 <= i < |front| :: front[i] == parts[m][i];
    forall k | 0 <= k < m
      ensures less[k] == parts[k] && OneNumber(less[k]) && Apart(parts[k], parts[k + 1])
    {
    }
    hide OneNumber;
    assert m > 0 ==> Apart(less[m - 1], less[m]);
  }

  lemma JoinedWithLast(parts: seq<seq<StageRow>>, last: seq<StageRow>)
    ensures Joined(parts + [last]) == Joined(parts) + last
  {
    assert (parts + [last])[..|parts|] == parts;
  }

  lemma AddToLast(parts: seq<seq<StageRow>>, last: seq<StageRow>, row: StageRow)
    requires last != [] && last[0].stageNo == row.stageNo
    ensures Add(parts + [last], row) == parts + [last + [row]]
  {
    assert (parts + [last])[..|parts|] == parts;
  }

  lemma LastAmongOthers(parts: seq<seq<StageRow>>, front: seq<StageRow>, row: StageRow)
    requires WellCut(parts) && parts != [] && parts[|parts| - 1] == front + [row] && front != []
    ensures TakesBack(parts, parts[..|parts| - 1] + [front], row)
  {
    hide WellCut, Joined, Add;
    var rest := parts[..|parts| - 1];
    LastShortened(parts, front, row);
    Sequences.FrontAndLast(parts);
    AddToLast(rest, front, row);
    JoinedWithLast(rest, front);
    JoinedWithLast(rest, front + [row]);
    assert Joined(rest) + (front + [row]) == Joined(rest) + front + [row];
  }

  lemma ShorterThenAdd(parts: seq<seq<StageRow>>)
    requires WellCut(parts) && parts != []
    ensures OneNumber(parts[|parts| - 1])
    ensures TakesBack(parts, Shorter(parts), parts[|parts| - 1][|parts[|parts| - 1]| - 1])
  {
    var last := parts[|parts| - 1];
    assert OneNumber(last);
    var front, row := last[..|last| - 1], last[|last| - 1];
    assert last == front + [row];
    if front == [] {
      LastAlone(parts, row);
    } else {
      LastAmongOthers(parts, front, row);
    }
  }

  /** Such a division is the only one: cutting the rows it joins gives it back. */
  lemma {:induction false} CutOfJoined(parts: seq<seq<StageRow>>)
    requires WellCut(parts)
    ensures Cut(Joined(parts)) == parts
    decreases |Joined(parts)|
  {
    if parts != [] {
      ShorterThenAdd(parts);
      CutOfJoined(Shorter(parts));
      var rows := Joined(parts);
      assert rows[..|rows| - 1] == Joined(Shorter(parts));
    }
  }

  /** The stretches of a route, numbered from 1. */
  function Stretches(route: Id, rows: seq<StageRow>): seq<Stretch> {
    CutIsWellCut(rows);
    var parts := Cut(rows);
    seq(|parts|, k requires 0 <= k < |parts| => Settled(route, k + 1, parts, k))
  }

  function Settled(route: Id, position: nat, parts: seq<seq<StageRow>>, k: nat): Stretch
    requires k < |parts| && WellCut(parts)
  {
    assert OneNumber(parts[k]);
    Stretch(route, position, parts[k][0].stageNo, Canon(parts[k][0].stageName), parts[k])
  }

  /** Cuts a route's rows as they are read, with the last number seen. */
  method CutRows(rows: seq<StageRow>) returns (parts: seq<seq<StageRow>>)
    ensures parts == Cut(rows)
  {
    parts := [];
    var last: Option<int> := None;
    for i := 0 to |rows|
      invariant parts == Cut(rows[..i]) && last == LastNumber(parts)
    {
      hide WellCut, Joined;
      assert rows[..i + 1][..i] == rows[..i];
      CutIsWellCut(rows[..i]);
      NumberedLast(parts, rows[i]);
      if last != Some(rows[i].stageNo) {
        parts := parts + [[rows[i]]];
        last := Some(rows[i].stageNo);
      } else {
        parts := parts[..|parts| - 1] + [parts[|parts| - 1] + [rows[i]]];
      }
    }
    assert rows[..|rows|] == rows;
  }

  function LastNumber(parts: seq<seq<StageRow>>): Option<int> {
    if parts == [] || parts[|parts| - 1] == [] then None else Some(parts[|parts| - 1][0].stageNo)
  }

  lemma NumberedLast(parts: seq<seq<StageRow>>, row: StageRow)
    requires WellCut(parts)
    ensures Add(parts, row) == if LastNumber(parts) != Some(row.stageNo) then parts + [[row]]
                               else parts[..|parts| - 1] + [parts[|parts| - 1] + [row]]
    ensures LastNumber(Add(parts, row)) == Some(row.stageNo)
  {
    assert parts != [] ==> OneNumber(parts[|parts| - 1]);
  }

  /** A route's stretches, each settled by its first row. */
  method CutRuns(route: Id, rows: seq<StageRow>) returns (runs: seq<Stretch>)
    ensures runs == Stretches(route, rows)
  {
    var parts := CutRows(rows);
    CutIsWellCut(rows);
    hide Cut, WellCut, Joined, Canon;
    runs := [];
    for k := 0 to |parts|
      invariant runs == Stretches(route, rows)[..k]
    {
      runs := runs + [Settled(route, k + 1, parts, k)];
    }
  }

  // ---- the order of routes

  datatype SortKey = Number(n: nat) | Text(s: string)

  predicate Digit(c: char) {
    '0' <= c <= '9'
  }

  function DigitValue(c: char): nat
    requires Digit(c)
  {
    (c - '0') as nat
  }

  function Parse(s: string): nat
    requires forall i | 0 <= i < |s| :: Digit(s[i])
  {
    if s == "" then 0 else 10 * Parse(s[..|s| - 1]) + DigitValue(s[|s| - 1])
  }

  /** Numbered routes by number, then the others by text. */
  function RouteSort(route: Id): SortKey {
    if route != "" && forall i | 0 <= i < |route| :: Digit(route[i]) then Number(Parse(route)) else Text(route)
  }

  predicate Before(a: SortKey, b: SortKey) {
    match (a, b)
    case (Number(m), Number(n)) => m < n
    case (Number(_), Text(_)) => true
    case (Text(_), Number(_)) => false
    case (Text(s), Text(t)) => s != t && Ordering.Leq(s, t)
  }

  lemma BeforeTotal(a: SortKey, b: SortKey)
    ensures Before(a, b) || Before(b, a) || a == b
    ensures !(Before(a, b) && Before(b, a)) && !Before(a, a)
  {
    if a.Text? && b.Text? {
      Ordering.LeqTotal(a.s, b.s);
    }
  }

  lemma BeforeTransitive(a: SortKey, b: SortKey, c: SortKey)
    requires Before(a, b) && Before(b, c)
    ensures Before(a, c)
  {
    if a.Text? && b.Text? && c.Text? {
      Ordering.LeqTransitive(a.s, b.s, c.s);
      Ordering.LeqTotal(a.s, b.s);
    }
  }
}
