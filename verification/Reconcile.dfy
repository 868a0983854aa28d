/** Which fare stage of the replica each run of a route is, when that can be told. */
module Reconcile {
  import opened Records
  import opened StageCut
  import opened StageChoice
  import opened Backfill

  datatype Reason = Absent | AmbiguousNames | CountDiffers | OrderDiffers | NameDiffers | SetDiffers

  /** The position in the replica of each run, where it has one, and what stood in the
      way of pairing them all as they stand. */
  datatype Verdict = Verdict(at: seq<Option<nat>>, reason: Option<Reason>, matched: nat)

  function Ours(runs: seq<Stretch>): seq<string> {
    seq(|runs|, i requires 0 <= i < |runs| => Canon(runs[i].name))
  }

  function Theirs(heads: seq<Head>): seq<string> {
    seq(|heads|, j requires 0 <= j < |heads| => Canon(heads[j].name))
  }

  /** The last position of a name. */
  function LastAt(names: seq<string>, name: string): (j: nat)
    requires name in names
    ensures j < |names| && names[j] == name
  {
    if names[|names| - 1] == name then |names| - 1 else LastAt(names[..|names| - 1], name)
  }

  /** The name says one stage on each side. */
  predicate Certain(ours: seq<string>, theirs: seq<string>, name: string) {
    multiset(ours)[name] == 1 && multiset(theirs)[name] == 1
  }

  function AtName(ours: seq<string>, theirs: seq<string>, name: string): Option<nat> {
    if Certain(ours, theirs, name) then
      assert name in multiset(theirs);
      Some(LastAt(theirs, name))
    else None
  }

  function ByName(ours: seq<string>, theirs: seq<string>): seq<Option<nat>> {
    seq(|ours|, i requires 0 <= i < |ours| => AtName(ours, theirs, ours[i]))
  }

  function Matches(at: seq<Option<nat>>): nat {
    if at == [] then 0 else Matches(at[..|at| - 1]) + if at[|at| - 1].Some? then 1 else 0
  }

  predicate Repeats(ours: seq<string>, theirs: seq<string>) {
    exists i :: 0 <= i < |ours| && (multiset(ours)[ours[i]] > 1 || multiset(theirs)[ours[i]] > 1)
  }

  predicate InPlace(at: seq<Option<nat>>) {
    forall i | 0 <= i < |at| && at[i].Some? :: at[i].value == i
  }

  function WhyNot(ours: seq<string>, theirs: seq<string>, at: seq<Option<nat>>): Reason {
    if Matches(at) == 0 && Repeats(ours, theirs) then AmbiguousNames
    else if |ours| != |theirs| then CountDiffers
    else if multiset(ours) == multiset(theirs) then OrderDiffers
    else if InPlace(at) then NameDiffers
    else SetDiffers
  }

  function Reconciled(runs: seq<Stretch>, heads: seq<Head>): Verdict {
    if heads == [] then Verdict(seq(|runs|, _ => None), Some(Absent), 0) else
      var ours, theirs := Ours(runs), Theirs(heads);
      if ours == theirs then Verdict(seq(|runs|, i => Some(i)), None, |runs|) else
        var at := ByName(ours, theirs);
        Verdict(at, Some(WhyNot(ours, theirs, at)), Matches(at))
  }

  /** The replica's stage of a run. */
  function HeadOf(runs: seq<Stretch>, heads: seq<Head>, i: nat): Option<Head>
    requires i < |runs|
  {
    PairingIsSound(runs, heads);
    var at := Reconciled(runs, heads).at[i];
    if at.Some? then Some(heads[at.value]) else None
  }

  // ---- counting names

  lemma {:induction false} CountedTwice(names: seq<string>, i: nat, j: nat)
    requires i < j < |names| && names[i] == names[j]
    ensures multiset(names)[names[i]] > 1
  {
    var before, after := names[..j], names[j..];
    assert names == before + after;
    assert before[i] == names[i] && after[0] == names[i];
    assert names[i] in multiset(before) && names[i] in multiset(after);
  }

  lemma CountedOnce(names: seq<string>, i: nat)
    requires i < |names| && forall j | 0 <= j < |names| && j != i :: names[j] != names[i]
    ensures multiset(names)[names[i]] == 1
  {
    assert names == names[..i] + [names[i]] + names[i + 1..];
    assert names[i] !in names[..i] && names[i] !in names[i + 1..];
  }

  predicate Distinct(names: seq<string>) {
    forall i, j | 0 <= i < j < |names| :: names[i] != names[j]
  }

  lemma DistinctCounts(names: seq<string>, name: string)
    requires Distinct(names)
    ensures multiset(names)[name] == if name in names then 1 else 0
  {
    if name in names {
      var i :| 0 <= i < |names| && names[i] == name;
      CountedOnce(names, i);
    }
  }

  // ---- the pairing

  /** Every run is paired with at most one stage, of its own name, and no stage is paired
      with two runs. */
  lemma PairingIsSound(runs: seq<Stretch>, heads: seq<Head>)
    ensures var at := Reconciled(runs, heads).at;
            && |at| == |runs|
            && (forall i | 0 <= i < |runs| && at[i].Some? ::
                  at[i].value < |heads| && Canon(heads[at[i].value].name) == Canon(runs[i].name))
            && (forall i, k | 0 <= i < k < |runs| && at[i].Some? && at[k].Some? :: at[i].value != at[k].value)
  {
    var ours, theirs := Ours(runs), Theirs(heads);
    if ours == theirs {
      assert |runs| == |ours| && |heads| == |theirs|;
      assert forall i | 0 <= i < |runs| :: ours[i] == Canon(runs[i].name) && theirs[i] == Canon(heads[i].name);
    } else {
      NamesPairApart(ours, theirs);
      hide ByName, Canon;
    }
  }

  lemma NamesPairApart(ours: seq<string>, theirs: seq<string>)
    ensures var at := ByName(ours, theirs);
            && |at| == |ours|
            && (forall i | 0 <= i < |ours| && at[i].Some? :: at[i].value < |theirs| && theirs[at[i].value] == ours[i])
            && (forall i, k | 0 <= i < k < |ours| && at[i].Some? && at[k].Some? :: at[i].value != at[k].value)
  {
    var at := ByName(ours, theirs);
    forall i, k | 0 <= i < k < |ours| && at[i].Some? && at[k].Some?
      ensures at[i].value != at[k].value
    {
      if at[i].value == at[k].value {
        CountedTwice(ours, i, k);
      }
    }
  }

  /** Unless the two lists are the same, a run has a stage exactly when its name occurs
      once on each side, and it is then the one stage of that name. */
  lemma PairedByName(runs: seq<Stretch>, heads: seq<Head>, i: nat, h: Head)
    requires i < |runs| && Ours(runs) != Theirs(heads)
    ensures HeadOf(runs, heads, i) == Some(h)
       <==> Certain(Ours(runs), Theirs(heads), Canon(runs[i].name)) && h in heads && Canon(h.name) == Canon(runs[i].name)
  {
    PairingIsSound(runs, heads);
    var ours, theirs := Ours(runs), Theirs(heads);
    if h in heads && Canon(h.name) == ours[i] && Certain(ours, theirs, ours[i]) {
      var j :| 0 <= j < |heads| && heads[j] == h;
      assert theirs[j] == ours[i];
      var k := LastAt(theirs, ours[i]);
      if j != k {
        CountedTwice(theirs, if j < k then j else k, if j < k then k else j);
      }
    }
  }

  /** Where neither side repeats a name, whatever the order: a run has the one stage that
      carries its name. Pairing by position, where it applies, is pairing by name. */
  lemma DistinctPairByName(runs: seq<Stretch>, heads: seq<Head>, i: nat, h: Head)
    requires i < |runs| && Distinct(Ours(runs)) && Distinct(Theirs(heads))
    ensures HeadOf(runs, heads, i) == Some(h) <==> h in heads && Canon(h.name) == Canon(runs[i].name)
  {
    var ours, theirs := Ours(runs), Theirs(heads);
    PairingIsSound(runs, heads);
    if ours == theirs {
      if h in heads && Canon(h.name) == ours[i] {
        var j :| 0 <= j < |heads| && heads[j] == h;
        assert theirs[j] == theirs[i];
      }
    } else {
      PairedByName(runs, heads, i, h);
      DistinctCounts(ours, ours[i]);
      DistinctCounts(theirs, ours[i]);
      if h in heads && Canon(h.name) == ours[i] {
        var j :| 0 <= j < |heads| && heads[j] == h;
        assert theirs[j] == ours[i];
      }
    }
  }

  /** The same names on both sides, none repeated: every run has a stage. */
  lemma SameNamesPairAll(runs: seq<Stretch>, heads: seq<Head>, i: nat)
    requires i < |runs| && Distinct(Ours(runs)) && multiset(Ours(runs)) == multiset(Theirs(heads))
    ensures HeadOf(runs, heads, i).Some?
  {
    var ours, theirs := Ours(runs), Theirs(heads);
    DistinctCounts(ours, ours[i]);
    assert ours[i] in multiset(theirs);
    var j :| 0 <= j < |theirs| && theirs[j] == ours[i];
    if ours != theirs {
      PairedByName(runs, heads, i, heads[j]);
    }
  }

  /** Nothing is reported exactly when the two lists are the same. */
  lemma SilentWhenSame(runs: seq<Stretch>, heads: seq<Head>)
    ensures Reconciled(runs, heads).reason == None <==> heads != [] && Ours(runs) == Theirs(heads)
  {
  }

  lemma {:induction false} MatchesAll(at: seq<Option<nat>>)
    ensures Matches(at) <= |at|
    ensures Matches(at) == |at| <==> forall i | 0 <= i < |at| :: at[i].Some?
    ensures Matches(at) == 0 <==> forall i | 0 <= i < |at| :: at[i].None?
  {
    if at != [] {
      MatchesAll(at[..|at| - 1]);
    }
  }

  /** What each reason says of the two lists and of the pairing is so, and `matched`
      counts the runs with a stage. */
  lemma ReasonsAreTrue(runs: seq<Stretch>, heads: seq<Head>)
    ensures Reconciled(runs, heads).matched == Matches(Reconciled(runs, heads).at)
    ensures match Reconciled(runs, heads).reason
            case None => Ours(runs) == Theirs(heads)
            case Some(Absent) => heads == []
            case Some(AmbiguousNames) =>
              Repeats(Ours(runs), Theirs(heads)) && forall i | 0 <= i < |runs| :: HeadOf(runs, heads, i).None?
            case Some(CountDiffers) => |runs| != |heads|
            case Some(OrderDiffers) =>
              multiset(Ours(runs)) == multiset(Theirs(heads)) && Ours(runs) != Theirs(heads)
              && forall i | 0 <= i < |runs| :: HeadOf(runs, heads, i).Some? <==> multiset(Ours(runs))[Ours(runs)[i]] == 1
            case Some(NameDiffers) =>
              |runs| == |heads| && InPlace(Reconciled(runs, heads).at)
              && exists i :: 0 <= i < |runs| && HeadOf(runs, heads, i).None?
            case Some(SetDiffers) =>
              |runs| == |heads| && multiset(Ours(runs)) != multiset(Theirs(heads)) && !InPlace(Reconciled(runs, heads).at)
  {
    var v, ours, theirs := Reconciled(runs, heads), Ours(runs), Theirs(heads);
    assert |ours| == |runs| && |theirs| == |heads| && (heads == [] ==> theirs == []);
    HeadsAre(runs, heads);
    MatchesAll(v.at);
    if heads != [] && ours != theirs {
      ReconciledByName(runs, heads);
      hide Reconciled, Ours, Theirs, HeadOf, ByName, Repeats, InPlace;
      if v.reason == Some(NameDiffers) {
        SomeUnpaired(runs, heads);
      } else if v.reason == Some(OrderDiffers) {
        PairedWhereOnce(runs, heads);
      }
    } else {
      SameOrAbsent(runs, heads);
      hide Reconciled, Ours, Theirs, HeadOf;
    }
  }

  lemma SameOrAbsent(runs: seq<Stretch>, heads: seq<Head>)
    requires heads == [] || Ours(runs) == Theirs(heads)
    ensures var v := Reconciled(runs, heads);
            v.matched == (if heads == [] then 0 else |runs|) && v.reason == if heads == [] then Some(Absent) else None
    ensures forall i | 0 <= i < |Reconciled(runs, heads).at| :: Reconciled(runs, heads).at[i].Some? <==> heads != []
    ensures |Reconciled(runs, heads).at| == |runs|
  {
  }

  lemma HeadsAre(runs: seq<Stretch>, heads: seq<Head>)
    ensures |Reconciled(runs, heads).at| == |runs|
    ensures forall i | 0 <= i < |runs| :: HeadOf(runs, heads, i).Some? <==> Reconciled(runs, heads).at[i].Some?
  {
    PairingIsSound(runs, heads);
    hide Reconciled;
  }

  lemma ReconciledByName(runs: seq<Stretch>, heads: seq<Head>)
    requires heads != [] && Ours(runs) != Theirs(heads)
    ensures var at := ByName(Ours(runs), Theirs(heads));
            Reconciled(runs, heads) == Verdict(at, Some(WhyNot(Ours(runs), Theirs(heads), at)), Matches(at))
  {
  }

  lemma SomeUnpaired(runs: seq<Stretch>, heads: seq<Head>)
    requires heads != [] && Ours(runs) != Theirs(heads) && |runs| == |heads| && InPlace(Reconciled(runs, heads).at)
    ensures exists i :: 0 <= i < |runs| && HeadOf(runs, heads, i).None?
  {
    hide Reconciled, Ours, Theirs, InPlace, HeadOf;
    HeadsAre(runs, heads);
    if forall i | 0 <= i < |runs| :: HeadOf(runs, heads, i).Some? {
      InPlaceIsSame(runs, heads);
    }
  }

  lemma PairedWhereOnce(runs: seq<Stretch>, heads: seq<Head>)
    requires heads != [] && Ours(runs) != Theirs(heads) && multiset(Ours(runs)) == multiset(Theirs(heads))
    ensures |Ours(runs)| == |runs|
    ensures forall i | 0 <= i < |runs| :: HeadOf(runs, heads, i).Some? <==> multiset(Ours(runs))[Ours(runs)[i]] == 1
  {
    assert |Ours(runs)| == |runs|;
    HeadsAre(runs, heads);
    ReconciledByName(runs, heads);
    hide Reconciled, Ours, Theirs, HeadOf, WhyNot;
  }

  lemma InPlaceIsSame(runs: seq<Stretch>, heads: seq<Head>)
    requires InPlace(Reconciled(runs, heads).at) && |runs| == |heads|
    requires forall i | 0 <= i < |runs| :: |Reconciled(runs, heads).at| == |runs| && Reconciled(runs, heads).at[i].Some?
    ensures Ours(runs) == Theirs(heads)
  {
    PairingIsSound(runs, heads);
    assert forall i | 0 <= i < |runs| :: Reconciled(runs, heads).at[i].value == i;
    assert forall i | 0 <= i < |runs| :: Ours(runs)[i] == Theirs(heads)[i];
  }

  // ---- the loops

  /** Where each name was last seen. */
  method Positions(theirs: seq<string>) returns (where: map<string, nat>)
    ensures forall name :: name in where <==> name in theirs
    ensures forall name | name in where :: where[name] == LastAt(theirs, name)
  {
    where := map[];
    for j := 0 to |theirs|
      invariant forall name :: name in where <==> name in theirs[..j]
      invariant forall name | name in where :: where[name] == LastAt(theirs[..j], name)
    {
      assert theirs[..j + 1] == theirs[..j] + [theirs[j]];
      assert theirs[..j + 1][..j] == theirs[..j];
      where := where[theirs[j] := j];
    }
    assert theirs[..|theirs|] == theirs;
  }

  method PairByName(ours: seq<string>, theirs: seq<string>) returns (at: seq<Option<nat>>, matched: nat)
    ensures at == ByName(ours, theirs) && matched == Matches(at)
  {
    var mine, yours := multiset(ours), multiset(theirs);
    var where := Positions(theirs);
    at, matched := [], 0;
    for i := 0 to |ours|
      invariant at == ByName(ours, theirs)[..i] && matched == Matches(at)
    {
      hide LastAt, Matches;
      var found: Option<nat> := None;
      if mine[ours[i]] == 1 && yours[ours[i]] == 1 {
        assert ours[i] in yours;
        found, matched := Some(where[ours[i]]), matched + 1;
      }
      assert found == AtName(ours, theirs, ours[i]);
      OneMoreMatch(at, found);
      at := at + [found];
    }
  }

  lemma OneMoreMatch(at: seq<Option<nat>>, found: Option<nat>)
    ensures Matches(at + [found]) == Matches(at) + if found.Some? then 1 else 0
  {
    assert (at + [found])[..|at|] == at;
  }

  method ReconcileRoute(runs: seq<Stretch>, heads: seq<Head>) returns (verdict: Verdict)
    ensures verdict == Reconciled(runs, heads)
  {
    if heads == [] {
      return Verdict(seq(|runs|, _ => None), Some(Absent), 0);
    }
    var ours, theirs := Ours(runs), Theirs(heads);
    if ours == theirs {
      return Verdict(seq(|runs|, i => Some(i)), None, |runs|);
    }
    var at, matched := PairByName(ours, theirs);
    var reason := WhyNot(ours, theirs, at);
    verdict := Verdict(at, Some(reason), matched);
  }

  // ---- the replica's heads

  /** A stage head listed twice running is one stage. */
  function Folded(heads: seq<Head>): seq<Head> {
    if |heads| <= 1 then heads else
      var front, last := heads[..|heads| - 1], heads[|heads| - 1];
      Folded(front) + if last.stop != front[|front| - 1].stop then [last] else []
  }

  predicate NoneTwiceRunning(heads: seq<Head>) {
    forall j | 0 <= j < |heads| - 1 :: heads[j].stop != heads[j + 1].stop
  }

  /** Folding leaves no stop twice running. */
  lemma {:induction false} FoldedNoneTwice(heads: seq<Head>)
    ensures heads != [] ==> Folded(heads) != [] && Folded(heads)[|Folded(heads)| - 1].stop == heads[|heads| - 1].stop
    ensures NoneTwiceRunning(Folded(heads))
  {
    if |heads| > 1 {
      FoldedNoneTwice(heads[..|heads| - 1]);
    }
  }

  /** A list without a stop twice running is folded already. */
  lemma {:induction false} FoldedAsIs(heads: seq<Head>)
    requires NoneTwiceRunning(heads)
    ensures Folded(heads) == heads
  {
    if |heads| > 1 {
      var m := |heads| - 1;
      FoldedAsIs(heads[..m]);
      assert heads[m - 1].stop != heads[m - 1 + 1].stop;
    }
  }

  /** Folding makes up no head. */
  lemma {:induction false} FoldedHeads(heads: seq<Head>)
    ensures forall h | h in Folded(heads) :: h in heads
  {
    if |heads| > 1 {
      FoldedHeads(heads[..|heads| - 1]);
    }
  }

  predicate Kept(heads: seq<Head>, h: Head) {
    exists f :: f in heads && f.stop == h.stop
  }

  /** Folding loses no stop. */
  lemma {:induction false} FoldedKeepsStops(heads: seq<Head>, h: Head)
    requires h in heads
    ensures Kept(Folded(heads), h)
  {
    if |heads| > 1 {
      var front, last := heads[..|heads| - 1], heads[|heads| - 1];
      FoldedNoneTwice(front);
      if h in front {
        FoldedKeepsStops(front, h);
        var f :| f in Folded(front) && f.stop == h.stop;
        assert f in Folded(heads);
      } else if last.stop != front[|front| - 1].stop {
        assert h == last && last in Folded(heads);
      } else {
        assert h == last && Folded(front)[|Folded(front)| - 1] in Folded(heads);
      }
    } else {
      assert Folded(heads) == heads;
    }
  }

  /** Folding makes up no head and settles at once. */
  lemma FoldingSettles(heads: seq<Head>)
    ensures Folded(Folded(heads)) == Folded(heads)
    ensures forall h | h in Folded(heads) :: h in heads
  {
    FoldedNoneTwice(heads);
    FoldedAsIs(Folded(heads));
    FoldedHeads(heads);
  }
}
