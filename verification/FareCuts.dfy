/** The fare stages of a stop list the editor accepts, as the stage scripts cut it. */
module FareCuts {
  import opened Records
  import opened RowRules
  import opened StageCut
  import Sequences

  /** A row as the stage scripts read it. */
  function AsStageRow(r: Row): StageRow {
    StageRow(if r.stageNo.Some? then r.stageNo.value else 0, r.stageName,
             StageStop(r.stop, r.kind, None, Marker(r.markerId, None, r.marker)))
  }

  function AsStageRows(rows: seq<Row>): seq<StageRow> {
    seq(|rows|, i requires 0 <= i < |rows| => AsStageRow(rows[i]))
  }

  /** Only stage, jump and intermediate stops: no map markers and no hidden stops. */
  predicate Plain(rows: seq<Row>) {
    forall i | 0 <= i < |rows| :: rows[i].kind == NewStop || rows[i].kind == JumpStop || rows[i].kind == IntermediateStop
  }

  /** A row with another stage number than the one before it opens a stage. */
  lemma {:induction false} OnlyOpenersCut(stops: map<Id, Stop>, rows: seq<Row>, i: nat)
    requires FareRows(stops, rows) && Plain(rows) && i < |rows|
    requires i > 0 ==> rows[i - 1].stageNo != rows[i].stageNo
    ensures Opener(rows[i].kind)
  {
    if rows[i].kind == IntermediateStop {
      assert FareRow(stops, rows, i);
      var j := LastOpener(rows[..i]);
      if j < i - 1 {
        assert FareRow(stops, rows, i - 1);
        assert !Opener(rows[..i][i - 1].kind);
        assert rows[i - 1].kind == IntermediateStop;
        LastOpenerOfPrefix(rows, i);
      }
      assert false;
    }
  }

  lemma LastOpenerOfPrefix(rows: seq<Row>, i: nat)
    requires 0 < i <= |rows| && !Opener(rows[i - 1].kind)
    ensures LastOpener(rows[..i]) == LastOpener(rows[..i - 1])
  {
    assert rows[..i][..i - 1] == rows[..i - 1];
  }

  /** Where part k of a cut begins. */
  function Start(parts: seq<seq<StageRow>>, k: nat): nat
    requires k <= |parts|
  {
    |Joined(parts[..k])|
  }

  lemma JoinedAround(parts: seq<seq<StageRow>>, k: nat)
    requires k < |parts|
    ensures Joined(parts) == Joined(parts[..k]) + parts[k] + Joined(parts[k + 1..])
    ensures Joined(parts[..k + 1]) == Joined(parts[..k]) + parts[k]
  {
    hide *;
    JoinedParts(parts[..k + 1], parts[k + 1..]);
    JoinedLast(parts[..k + 1]);
    Sequences.Around(parts, k);
  }

  lemma OneNumberAt(parts: seq<seq<StageRow>>, k: nat)
    requires WellCut(parts) && k < |parts|
    ensures parts[k] != [] && parts[k][|parts[k]| - 1].stageNo == parts[k][0].stageNo
    ensures k > 0 ==> Apart(parts[k - 1], parts[k])
  {
    assert OneNumber(parts[k]);
  }

  /** What follows `a` in `a + b + c` is `b`. */
  lemma Within<T>(a: seq<T>, b: seq<T>, c: seq<T>)
    requires b != []
    ensures |a| < |a + b + c| && (a + b + c)[|a|] == b[0]
    ensures |a| + |b| <= |a + b + c| && (a + b + c)[|a| + |b| - 1] == b[|b| - 1]
  {
  }

  lemma PartBegins(parts: seq<seq<StageRow>>, k: nat)
    requires WellCut(parts) && k < |parts|
    ensures Start(parts, k) < |Joined(parts)| && parts[k] != []
    ensures Joined(parts)[Start(parts, k)] == parts[k][0]
    ensures k > 0 ==> Start(parts, k) > 0 && Joined(parts)[Start(parts, k) - 1].stageNo == parts[k - 1][0].stageNo
  {
    hide Joined, WellCut, OneNumber;
    OneNumberAt(parts, k);
    JoinedAround(parts, k);
    Within(Joined(parts[..k]), parts[k], Joined(parts[k + 1..]));
    if k > 0 {
      OneNumberAt(parts, k - 1);
      JoinedAround(parts, k - 1);
      Within(Joined(parts[..k - 1]), parts[k - 1], Joined(parts[k..]));
    }
  }

  lemma FareRowAt(stops: map<Id, Stop>, rows: seq<Row>, i: nat)
    requires FareRows(stops, rows) && Plain(rows) && i < |rows|
    ensures rows[i].stageNo.Some?
    ensures i > 0 ==> rows[i - 1].stageNo.Some? && rows[i - 1].stageNo.value <= rows[i].stageNo.value
  {
    assert FareRow(stops, rows, i);
    if i > 0 {
      assert FareRow(stops, rows, i - 1);
    }
  }

  lemma StageRowAt(rows: seq<Row>, i: nat)
    requires i < |rows| && rows[i].stageNo.Some?
    ensures AsStageRows(rows)[i].stageNo == rows[i].stageNo.value
  {
  }

  /** The stage scripts cut an accepted list only where a stage opens, and its stage
      numbers rise strictly from stretch to stretch. */
  lemma CutsAtOpeners(stops: map<Id, Stop>, rows: seq<Row>, k: nat)
    requires FareList(stops, rows) && Plain(rows)
    requires k < |Cut(AsStageRows(rows))|
    ensures var parts := Cut(AsStageRows(rows));
            && Start(parts, k) < |rows| && Opener(rows[Start(parts, k)].kind)
            && parts[k] != []
            && (k > 0 ==> parts[k - 1] != [] && parts[k - 1][0].stageNo < parts[k][0].stageNo)
  {
    assert |AsStageRows(rows)| == |rows|;
    hide Cut, WellCut, Start, Joined, FareRows, Plain, Opener, AsStageRows;
    var parts := Cut(AsStageRows(rows));
    CutIsWellCut(AsStageRows(rows));
    PartBegins(parts, k);
    OneNumberAt(parts, k);
    var i := Start(parts, k);
    FareRowAt(stops, rows, i);
    StageRowAt(rows, i);
    if k > 0 {
      StageRowAt(rows, i - 1);
    } else {
      StartOfFirst(parts);
    }
    OnlyOpenersCut(stops, rows, i);
  }

  lemma StartOfFirst(parts: seq<seq<StageRow>>)
    ensures Start(parts, 0) == 0
  {
    assert parts[..0] == [];
  }
}
