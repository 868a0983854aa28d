/** Merges: the pointers they leave form a forest, and they move every call from
    the stop that goes to the stop that stays, changing nothing else. */
module Merges {
  import opened Records
  import opened Replay
  import opened Findings
  import opened RowRules
  import opened Validation
  import opened Passing

  // ---- the forest

  /** Following merge pointers from the stop reaches one that was not merged away
      within n steps, every stop on the way existing. */
  ghost predicate Settles(stops: map<Id, Stop>, sid: Id, n: nat)
    decreases n
  {
    sid in stops
    && (stops[sid].mergedInto.None? || (n > 0 && Settles(stops, stops[sid].mergedInto.value, n - 1)))
  }

  /** A forest of depth n at most, whose inner stops are all deleted. */
  ghost predicate Forest(stops: map<Id, Stop>, n: nat) {
    forall sid | sid in stops :: Settles(stops, sid, n) && (stops[sid].mergedInto.Some? ==> stops[sid].deleted)
  }

  predicate SamePointers(a: map<Id, Stop>, b: map<Id, Stop>) {
    forall sid | sid in a :: sid in b && a[sid].mergedInto == b[sid].mergedInto
  }

  lemma {:induction false} SettlesStays(a: map<Id, Stop>, b: map<Id, Stop>, sid: Id, n: nat)
    requires SamePointers(a, b) && Settles(a, sid, n)
    ensures Settles(b, sid, n)
    decreases n
  {
    if a[sid].mergedInto.Some? {
      SettlesStays(a, b, a[sid].mergedInto.value, n - 1);
    }
  }

  /** One more pointer, from a stop that had none to another that has none, makes
      every chain at most one longer. */
  lemma {:induction false} SettlesPastMerge(a: map<Id, Stop>, b: map<Id, Stop>, key: Id, into: Id, sid: Id, n: nat)
    requires key in a && into in a && key != into
    requires a[key].mergedInto.None? && a[into].mergedInto.None?
    requires a.Keys <= b.Keys && b[key].mergedInto == Some(into)
    requires forall x | x in a && x != key :: a[x].mergedInto == b[x].mergedInto
    requires Settles(a, sid, n)
    ensures Settles(b, sid, n + 1)
    decreases n
  {
    if sid == key {
      assert Settles(b, into, n);
    } else if a[sid].mergedInto.Some? {
      SettlesPastMerge(a, b, key, into, a[sid].mergedInto.value, n - 1);
    }
  }

  predicate NotIntoItself(ch: Change) {
    IsMerge(ch.edit) ==> ch.edit.into != ch.key
  }

  function MergeCount(changes: seq<Change>): nat {
    if changes == [] then 0 else
      MergeCount(changes[..|changes| - 1]) + if IsMerge(changes[|changes| - 1].edit) then 1 else 0
  }

  /** A written stop keeps its pointer and stays deleted if it was. */
  predicate KeepsPointer(stops: map<Id, Stop>, sid: Id, now: Stop) {
    if sid in stops then now.mergedInto == stops[sid].mergedInto && (stops[sid].deleted ==> now.deleted)
    else now.mergedInto.None?
  }

  lemma PlainWritesKeepPointers(ctx: Context, before: Feed, ch: Change)
    requires !IsMerge(ch.edit) && Clean(ChangeFindings(ctx, before, ch))
    ensures forall sid | sid in Effect(before, ch).stops :: KeepsPointer(before.stops, sid, Effect(before, ch).stops[sid])
  {
    if OnStation(ch.edit) {
      StationEditPasses(ctx, before, ch);
      StationWritesKeepPointers(before.stops, ch);
    } else if OnStop(ch.edit) {
      StopEditPasses(ctx, before, ch);
      StopWritesKeepPointers(before.stops, ch);
    }
  }

  lemma StopWritesKeepPointers(stops: map<Id, Stop>, ch: Change)
    requires OnStop(ch.edit) && !ch.edit.StopMerge? && (ch.edit.StopCreate? ==> ch.key !in stops)
    ensures forall sid | sid in StopWrites(stops, ch) :: KeepsPointer(stops, sid, StopWrites(stops, ch)[sid])
  {
  }

  lemma StationWritesKeepPointers(stops: map<Id, Stop>, ch: Change)
    requires OnStation(ch.edit) && !ch.edit.StationMerge?
    requires ch.edit.StationCreate? <==> ch.key !in stops
    ensures forall sid | sid in StationEditWrites(stops, ch) :: KeepsPointer(stops, sid, StationEditWrites(stops, ch)[sid])
  {
  }

  lemma PlainKeepsForest(before: Feed, writes: map<Id, Stop>, n: nat)
    requires Forest(before.stops, n)
    requires forall sid | sid in writes :: KeepsPointer(before.stops, sid, writes[sid])
    ensures Forest(before.stops + writes, n)
  {
    var after := before.stops + writes;
    assert SamePointers(before.stops, after);
    forall sid | sid in after
      ensures Settles(after, sid, n) && (after[sid].mergedInto.Some? ==> after[sid].deleted)
    {
      if sid in before.stops {
        assert Settles(before.stops, sid, n);
        SettlesStays(before.stops, after, sid, n);
      }
    }
  }

  ghost predicate PointsInto(before: map<Id, Stop>, after: map<Id, Stop>, key: Id, into: Id) {
    && after.Keys == before.Keys && key in before && into in before
    && after[key].mergedInto == Some(into) && after[key].deleted
    && forall sid | sid in before && sid != key ::
         after[sid].mergedInto == before[sid].mergedInto && after[sid].deleted == before[sid].deleted
  }

  lemma StopMergePoints(stops: map<Id, Stop>, ch: Change)
    requires ch.edit.StopMerge? && NotIntoItself(ch) && ch.key in stops && ch.edit.into in stops
    ensures PointsInto(stops, stops + StopWrites(stops, ch), ch.key, ch.edit.into)
  {
    assert (stops + StopWrites(stops, ch)).Keys == stops.Keys;
  }

  lemma StationMergePoints(stops: map<Id, Stop>, ch: Change)
    requires ch.edit.StationMerge? && NotIntoItself(ch) && ch.key in stops && ch.edit.into in stops
    ensures PointsInto(stops, stops + StationEditWrites(stops, ch), ch.key, ch.edit.into)
  {
    var key, into := ch.key, ch.edit.into;
    var writes := StationMergeWrites(stops, key, into, ch.edit.keep);
    var now := stops + map[into := Kept(stops[key], stops[into], ch.edit.keep)];
    assert StationEditWrites(stops, ch) == writes;
    forall sid | sid in stops && sid != key
      ensures sid in writes ==> writes[sid] == now[sid] || writes[sid] == now[sid].(parent := Some(into))
      ensures now[sid].mergedInto == stops[sid].mergedInto && now[sid].deleted == stops[sid].deleted
    {
    }
    hide StationMergeWrites, StationEditWrites, Kept;
    assert (stops + writes).Keys == stops.Keys by {
      StationMergeKeys(stops, key, into, ch.edit.keep);
    }
  }

  lemma StationMergeKeys(stops: map<Id, Stop>, key: Id, into: Id, keep: Keep)
    requires key in stops && into in stops
    ensures StationMergeWrites(stops, key, into, keep).Keys <= stops.Keys
    ensures key in StationMergeWrites(stops, key, into, keep)
    ensures StationMergeWrites(stops, key, into, keep)[key]
         == stops[key].(deleted := true, parent := None, mergedInto := Some(into))
  {
  }

  lemma MergeKeepsForest(before: Feed, ch: Change, n: nat)
    requires IsMerge(ch.edit) && NotIntoItself(ch) && Clean(MergeFindings(before, ch))
    requires Forest(before.stops, n)
    ensures Forest(Applied(before, ch).stops, n + 1)
  {
    var key, into := ch.key, ch.edit.into;
    var after := Applied(before, ch).stops;
    if ch.edit.StopMerge? {
      CleanStopMerge(before, ch);
      StopMergePoints(before.stops, ch);
    } else {
      CleanStationMerge(before, ch);
      StationMergePoints(before.stops, ch);
    }
    assert Settles(before.stops, key, n) && Settles(before.stops, into, n);
    forall sid | sid in after
      ensures Settles(after, sid, n + 1) && (after[sid].mergedInto.Some? ==> after[sid].deleted)
    {
      assert Settles(before.stops, sid, n);
      SettlesPastMerge(before.stops, after, key, into, sid, n);
    }
  }

  ghost predicate ForestAfter(live: Feed, changes: seq<Change>, n: nat) {
    Forest(Projected(live, changes).stops, n + MergeCount(changes))
  }

  lemma ForestBefore(live: Feed, n: nat)
    requires Forest(live.stops, n)
    ensures ForestAfter(live, [], n)
  {
    ProjectedNothing(live);
  }

  lemma {:induction false} PrefixKeepsForest(live: Feed, changes: seq<Change>, reviewStops: map<nat, Id>, k: nat, n: nat)
    requires k <= |changes| && Valid(live, changes, reviewStops) && Forest(live.stops, n)
    requires forall i | 0 <= i < |changes| :: NotIntoItself(changes[i])
    ensures ForestAfter(live, changes[..k], n)
  {
    hide Valid, Forest, ForestAfter, ChangeFindings, Clean, ContextOf, Projected, NotIntoItself;
    if k == 0 {
      ForestBefore(live, n);
      assert changes[..0] == [];
    } else {
      PrefixKeepsForest(live, changes, reviewStops, k - 1, n);
      var front, ch := changes[..k - 1], changes[k - 1];
      ValidEveryChange(live, changes, reviewStops, k - 1);
      ReplayKeepsForest(live, ContextOf(live, changes, reviewStops), front, ch, n);
      assert changes[..k] == front + [ch];
    }
  }

  lemma ForestAfterIs(live: Feed, changes: seq<Change>, n: nat)
    ensures ForestAfter(live, changes, n) <==> Forest(Projected(live, changes).stops, n + MergeCount(changes))
  {
  }

  lemma MergeCountAppend(front: seq<Change>, ch: Change)
    ensures MergeCount(front + [ch]) == MergeCount(front) + if IsMerge(ch.edit) then 1 else 0
  {
    assert (front + [ch])[..|front|] == front;
  }

  lemma ReplayKeepsForest(live: Feed, ctx: Context, front: seq<Change>, ch: Change, n: nat)
    requires Clean(ChangeFindings(ctx, Projected(live, front), ch)) && NotIntoItself(ch)
    requires ForestAfter(live, front, n)
    ensures ForestAfter(live, front + [ch], n)
  {
    ForestAfterIs(live, front, n);
    ForestAfterIs(live, front + [ch], n);
    hide *;
    MergeCountAppend(front, ch);
    ChangeKeepsForest(ctx, Projected(live, front), ch, n + MergeCount(front));
    ProjectedAppend(live, front, ch);
  }

  lemma ChangeKeepsForest(ctx: Context, before: Feed, ch: Change, n: nat)
    requires Clean(ChangeFindings(ctx, before, ch)) && NotIntoItself(ch) && Forest(before.stops, n)
    ensures Forest(Applied(before, ch).stops, n + if IsMerge(ch.edit) then 1 else 0)
  {
    if IsMerge(ch.edit) {
      MergeKeepsForest(before, ch, n);
    } else {
      PlainWritesKeepPointers(ctx, before, ch);
      PlainKeepsForest(before, Effect(before, ch).stops, n);
    }
  }

  /** After a validated draft goes live, following merge pointers from any stop still
      ends, within one more step for each merge of the draft. */
  lemma CommitKeepsForest(live: Feed, changes: seq<Change>, reviewStops: map<nat, Id>, n: nat)
    requires Valid(live, changes, reviewStops) && Forest(live.stops, n)
    requires forall i | 0 <= i < |changes| :: NotIntoItself(changes[i])
    ensures Forest(AfterCommit(live, changes).stops, n + MergeCount(changes))
  {
    hide Valid, Forest, Over, Replayed, NotIntoItself;
    PrefixKeepsForest(live, changes, reviewStops, |changes|, n);
    assert changes[..|changes|] == changes;
    PublishedForest(live, Replayed(live, changes), n + MergeCount(changes));
  }

  lemma PublishedForest(live: Feed, overlay: Feed, m: nat)
    requires Forest(Over(live, overlay).stops, m)
    ensures Forest(Published(live, overlay).stops, m)
  {
    var a, b := Over(live, overlay).stops, Published(live, overlay).stops;
    assert SamePointers(a, b);
    forall sid | sid in b
      ensures Settles(b, sid, m) && (b[sid].mergedInto.Some? ==> b[sid].deleted)
    {
      assert Settles(a, sid, m);
      SettlesStays(a, b, sid, m);
    }
  }

  // ---- the calls

  /** A stop merge moves every row from the merged stop to the kept one: nothing is
      left on the one, the other serves both sets of routes, and no row's place,
      type, stage or marker changes. */
  lemma MergeMovesEveryCall(f: Feed, ch: Change)
    requires ch.edit.StopMerge? && ch.key in f.stops && ch.edit.into in f.stops && ch.edit.into != ch.key
    ensures var after := Applied(f, ch);
            && RoutesUsing(after.rows, ch.key) == {}
            && RoutesUsing(after.rows, ch.edit.into) == RoutesUsing(f.rows, ch.key) + RoutesUsing(f.rows, ch.edit.into)
            && (forall sid | sid != ch.key && sid != ch.edit.into :: RoutesUsing(after.rows, sid) == RoutesUsing(f.rows, sid))
            && after.rows.Keys == f.rows.Keys
            && forall rid, i | rid in f.rows && 0 <= i < |f.rows[rid]| ::
                 |after.rows[rid]| == |f.rows[rid]|
                 && after.rows[rid][i].(stop := None) == f.rows[rid][i].(stop := None)
  {
    MergeRenamesEverywhere(f, ch);
    var after := Applied(f, ch);
    hide Applied, Names, Renamed;
    forall rid | rid in f.rows
      ensures !Names(after.rows[rid], ch.key)
      ensures Names(after.rows[rid], ch.edit.into) <==> Names(f.rows[rid], ch.key) || Names(f.rows[rid], ch.edit.into)
      ensures forall sid | sid != ch.key && sid != ch.edit.into :: Names(after.rows[rid], sid) <==> Names(f.rows[rid], sid)
      ensures |after.rows[rid]| == |f.rows[rid]|
      ensures forall i | 0 <= i < |f.rows[rid]| :: after.rows[rid][i].(stop := None) == f.rows[rid][i].(stop := None)
    {
      RenamedNames(f.rows[rid], ch.key, ch.edit.into);
      RenamedKeeps(f.rows[rid], ch.key, ch.edit.into);
    }
  }

  lemma RenamedKeeps(rows: seq<Row>, key: Id, into: Id)
    ensures |Renamed(rows, key, into)| == |rows|
    ensures forall i | 0 <= i < |rows| :: Renamed(rows, key, into)[i].(stop := None) == rows[i].(stop := None)
  {
  }

  lemma RenamedNames(rows: seq<Row>, key: Id, into: Id)
    requires key != into
    ensures !Names(Renamed(rows, key, into), key)
    ensures Names(Renamed(rows, key, into), into) <==> Names(rows, key) || Names(rows, into)
    ensures forall sid | sid != key && sid != into :: Names(Renamed(rows, key, into), sid) <==> Names(rows, sid)
  {
    var after := Renamed(rows, key, into);
    assert forall i | 0 <= i < |rows| :: after[i].stop == if rows[i].stop == Some(key) then Some(into) else rows[i].stop;
    if Names(rows, key) {
      var i :| 0 <= i < |rows| && rows[i].stop == Some(key);
      assert after[i].stop == Some(into);
    }
    if Names(rows, into) {
      var i :| 0 <= i < |rows| && rows[i].stop == Some(into);
      assert after[i].stop == Some(into);
    }
    forall sid | sid != key && sid != into
      ensures Names(after, sid) <==> Names(rows, sid)
    {
      if Names(rows, sid) {
        var i :| 0 <= i < |rows| && rows[i].stop == Some(sid);
        assert after[i].stop == Some(sid);
      }
    }
  }

  function Moved(stop: Option<Id>, key: Id, into: Id): Option<Id> {
    if stop == Some(key) then Some(into) else stop
  }

  lemma {:induction false} ServedStopsRenamed(rows: seq<Row>, key: Id, into: Id)
    ensures |ServedStops(Renamed(rows, key, into))| == |ServedStops(rows)|
    ensures forall i | 0 <= i < |ServedStops(rows)| ::
              ServedStops(Renamed(rows, key, into))[i] == Moved(ServedStops(rows)[i], key, into)
  {
    if rows != [] {
      var front := rows[..|rows| - 1];
      ServedStopsRenamed(front, key, into);
      var after := Renamed(rows, key, into);
      assert after[..|after| - 1] == Renamed(front, key, into);
    }
  }

  /** The i-th served stop is followed by the same stop. */
  predicate Repeats(calls: seq<Option<Id>>, i: nat)
    requires i + 1 < |calls|
  {
    calls[i] == calls[i + 1]
  }

  /** After the merge two served stops in a row are one stop exactly where they were
      already, or where the validator's repeat check fires. */
  lemma MergeRepeatsExactly(rows: seq<Row>, key: Id, into: Id, i: nat)
    requires key != into && i + 1 < |ServedStops(rows)|
    ensures |ServedStops(Renamed(rows, key, into))| == |ServedStops(rows)|
    ensures Repeats(ServedStops(Renamed(rows, key, into)), i)
       <==> Repeats(ServedStops(rows), i) || RepeatsAt(ServedStops(rows), i, key, into)
  {
    ServedStopsRenamed(rows, key, into);
    var a, b := ServedStops(rows)[i], ServedStops(rows)[i + 1];
    if {a, b} == {Some(key), Some(into)} {
      assert a in {Some(key), Some(into)} && b in {Some(key), Some(into)};
      assert Some(key) in {a, b} && Some(into) in {a, b};
    }
  }
}
