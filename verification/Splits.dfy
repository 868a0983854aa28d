/** Splitting routes off a reviewed stop: which calls move, and how it is undone. */
module Splits {
  import opened Records
  import opened Replay
  import opened Drafts
  import opened Cases
  import opened Steps
  import opened Lifecycle
  import opened Merges
  import opened Texts

  // ---- the calls

  /** A stop list with the stop replaced and the rows numbered afresh. */
  function Swapped(rows: seq<Row>, sid: Id, minted: Id): seq<Row> {
    Renumbered(Renamed(rows, sid, minted))
  }

  /** The tables after a split: the new stop, and its stop lists for the routes named. */
  ghost predicate SplitsTo(live: Feed, f: Feed, created: Stop, sid: Id, minted: Id, routes: seq<Id>) {
    && f.stops == live.stops[minted := created]
    && f.routes == live.routes
    && f.rows.Keys == live.rows.Keys + (set rid | rid in routes)
    && (forall rid | rid in f.rows ::
          f.rows[rid] == if rid in routes then Swapped(RowsOf(live.rows, rid), sid, minted) else live.rows[rid])
  }

  function Created(create: Change): Stop
    requires create.edit.StopCreate?
  {
    Stop(create.edit.name, create.edit.position, 0, None, Stored(create.edit.platform), false, None, 1)
  }

  lemma RowsWritten(f: Feed, ch: Change)
    requires ch.edit.RowsReplace?
    ensures Applied(f, ch) == f.(rows := f.rows[ch.key := Renumbered(ch.edit.rows)])
  {
    assert f.stops + map[] == f.stops && f.routes + map[] == f.routes;
    assert f.rows + map[ch.key := Renumbered(ch.edit.rows)] == f.rows[ch.key := Renumbered(ch.edit.rows)];
  }

  lemma StopCreated(f: Feed, ch: Change)
    requires ch.edit.StopCreate?
    ensures Applied(f, ch)
         == f.(stops := f.stops[ch.key := Stop(ch.edit.name, ch.edit.position, 0, None, Stored(ch.edit.platform), false, None, 1)])
  {
    var st := Stop(ch.edit.name, ch.edit.position, 0, None, ch.edit.platform, false, None, 1);
    assert f.routes + map[] == f.routes && f.rows + map[] == f.rows;
    assert f.stops + map[ch.key := st] == f.stops[ch.key := st];
  }

  lemma SplitsOneMore(live: Feed, f: Feed, created: Stop, sid: Id, minted: Id, routes: seq<Id>, ch: Change)
    requires SplitsTo(live, f, created, sid, minted, routes)
    requires ch.edit.RowsReplace? && ch.edit.rows == Renamed(RowsOf(live.rows, ch.key), sid, minted)
    ensures SplitsTo(live, Applied(f, ch), created, sid, minted, routes + [ch.key])
  {
    hide Applied, Renamed, Renumbered;
    RowsWritten(f, ch);
  }

  lemma SplitsNone(live: Feed, create: Change, sid: Id)
    requires create.edit.StopCreate?
    ensures SplitsTo(live, Applied(live, create),
                     Created(create),
                     sid, create.key, [])
  {
    hide Applied;
    StopCreated(live, create);
  }

  lemma SplitChangesLast(live: Feed, create: Change, sid: Id, routes: seq<Id>, rid: nat, next: nat) returns (ch: Change)
    requires routes != []
    ensures [create] + SplitChanges(live, sid, create.key, routes, rid, next)
         == [create] + SplitChanges(live, sid, create.key, routes[..|routes| - 1], rid, next) + [ch]
    ensures routes == routes[..|routes| - 1] + [ch.key]
    ensures ch.edit.RowsReplace? && ch.edit.rows == Renamed(RowsOf(live.rows, ch.key), sid, create.key)
  {
    var front := SplitChanges(live, sid, create.key, routes[..|routes| - 1], rid, next);
    ch := SplitChanges(live, sid, create.key, routes, rid, next)[|front|];
    assert [create] + (front + [ch]) == [create] + front + [ch];
  }

  lemma CreatedOnly(live: Feed, create: Change, sid: Id)
    requires create.edit.StopCreate?
    ensures SplitsTo(live, Projected(live, [create]), Created(create), sid, create.key, [])
  {
    hide Applied, Projected, SplitsTo;
    assert [create] == [] + [create];
    ProjectedAppend(live, [], create);
    ProjectedNothing(live);
    SplitsNone(live, create, sid);
  }

  lemma {:induction false} SplitReplays(live: Feed, create: Change, sid: Id, routes: seq<Id>, rid: nat, next: nat)
    requires create.edit.StopCreate?
    ensures SplitsTo(live, Projected(live, [create] + SplitChanges(live, sid, create.key, routes, rid, next)),
                     Created(create), sid, create.key, routes)
  {
    if routes == [] {
      CreatedOnly(live, create, sid);
      assert [create] + SplitChanges(live, sid, create.key, [], rid, next) == [create];
    } else {
      hide *;
      var less := routes[..|routes| - 1];
      SplitReplays(live, create, sid, less, rid, next);
      var before := [create] + SplitChanges(live, sid, create.key, less, rid, next);
      var ch := SplitChangesLast(live, create, sid, routes, rid, next);
      ProjectedAppend(live, before, ch);
      SplitsOneMore(live, Projected(live, before), Created(create), sid, create.key, less, ch);
    }
  }

  lemma SwappedRows(rows: seq<Row>, sid: Id, minted: Id)
    requires sid != minted
    ensures |Swapped(rows, sid, minted)| == |rows|
    ensures forall i | 0 <= i < |rows| ::
              Swapped(rows, sid, minted)[i]
              == rows[i].(sequence := i + 1, stop := if rows[i].stop == Some(sid) then Some(minted) else rows[i].stop)
    ensures !Names(Swapped(rows, sid, minted), sid)
    ensures Names(rows, sid) ==> Names(Swapped(rows, sid, minted), minted)
  {
    if Names(rows, sid) {
      var i :| 0 <= i < |rows| && rows[i].stop == Some(sid);
      assert Swapped(rows, sid, minted)[i].stop == Some(minted);
    }
  }

  /** The routes named call at the new stop instead of the old one and are otherwise as
      they were; every other route is untouched, and one still calls at the old stop. */
  ghost predicate RowsSplit(live: Feed, f: Feed, sid: Id, minted: Id, routes: seq<Id>) {
    && f.rows.Keys == live.rows.Keys
    && (forall r | r in live.rows && r !in routes :: f.rows[r] == live.rows[r])
    && (forall r | r in routes ::
          r in live.rows && r in Calling(live, sid) && r in Calling(f, minted) && r !in RoutesUsing(f.rows, sid)
          && |f.rows[r]| == |live.rows[r]|
          && forall i | 0 <= i < |live.rows[r]| ::
               f.rows[r][i] == live.rows[r][i].(sequence := i + 1,
                 stop := if live.rows[r][i].stop == Some(sid) then Some(minted) else live.rows[r][i].stop))
    && exists r :: r !in routes && r in Calling(f, sid)
  }

  /** A new stop at the point given and calls moved to it, no other record touched. */
  ghost predicate SplitOff(live: Feed, f: Feed, sid: Id, minted: Id, routes: seq<Id>, called: string, position: Position) {
    && minted !in live.stops && minted in f.stops
    && f.stops[minted].name == called && f.stops[minted].position == position && f.stops[minted].locationType == 0
    && f.stops[minted].parent == None && f.stops[minted].platform == None && !f.stops[minted].deleted
    && (forall x | x in live.stops :: x in f.stops && f.stops[x] == live.stops[x])
    && f.routes == live.routes
    && RowsSplit(live, f, sid, minted, routes)
  }

  lemma SplitTables(live: Feed, create: Change, sid: Id, routes: seq<Id>, rid: nat, next: nat)
    requires create.edit.StopCreate? && create.edit.platform == None
    requires sid in live.stops && create.key !in live.stops && Splittable(live, sid, routes)
    ensures SplitOff(live, Projected(live, [create] + SplitChanges(live, sid, create.key, routes, rid, next)),
                     sid, create.key, routes, create.edit.name, create.edit.position)
  {
    var f := Projected(live, [create] + SplitChanges(live, sid, create.key, routes, rid, next));
    SplitReplays(live, create, sid, routes, rid, next);
    var created := Created(create);
    hide *;
    CallsSplit(live, f, sid, create.key, routes, created);
    SplitStops(live, f, sid, create.key, routes, created);
  }

  lemma SplitStops(live: Feed, f: Feed, sid: Id, minted: Id, routes: seq<Id>, created: Stop)
    requires SplitsTo(live, f, created, sid, minted, routes) && RowsSplit(live, f, sid, minted, routes)
    requires minted !in live.stops && !created.deleted
    requires created.locationType == 0 && created.parent == None && created.platform == None
    ensures SplitOff(live, f, sid, minted, routes, created.name, created.position)
  {
    hide RowsSplit, Swapped;
  }

  lemma SplitListIs(sys: System, rid: nat, routes: seq<Id>, position: Position, called: string, minted: Id)
    returns (create: Change)
    requires rid in sys.reviews
    ensures create.edit == StopCreate(called, position, None) && create.key == minted
    ensures SplitList(sys, rid, routes, position, called, minted)
         == [create] + SplitChanges(sys.feed, sys.reviews[rid].stop, create.key, routes, rid, sys.nextChange + 1)
  {
    create := Change(sys.nextChange, minted, StopCreate(called, position, None), None, Some(rid));
  }

  /** Replayed over the live data, a split moves the calls of exactly the routes named,
      from the reviewed stop to the new one. Every other list and record stays, and a
      listed route still calls at the reviewed stop. */
  lemma SplitConservesCalls(sys: System, u: User, rid: nat, id: SetId, routes: seq<Id>, position: Position,
                            name: Option<string>, minted: Id)
    requires SplitReview(sys, u, rid, id, routes, position, name, minted).Done?
    ensures var now := SplitReview(sys, u, rid, id, routes, position, name, minted).sys;
            var was, sid := |sys.sets[id].changes|, sys.reviews[rid].stop;
            && sid in sys.feed.stops
            && SplitOff(sys.feed, Projected(sys.feed, now.sets[id].changes[was..]), sid, minted, routes,
                        if name.Some? && Stripped(name.value) != "" then Stripped(name.value) else sys.feed.stops[sid].name,
                        position)
  {
    SplitAppends(sys, u, rid, id, routes, position, name, minted);
    var sid := sys.reviews[rid].stop;
    var called := if name.Some? && !Blank(name.value) then Stripped(name.value) else sys.feed.stops[sid].name;
    if name.Some? {
      BlankStrips(name.value);
    }
    hide *;
    var create := SplitListIs(sys, rid, routes, position, called, minted);
    SplitTables(sys.feed, create, sid, routes, rid, sys.nextChange + 1);
  }

  /** What a split appends to the draft. */
  lemma SplitAppends(sys: System, u: User, rid: nat, id: SetId, routes: seq<Id>, position: Position,
                     name: Option<string>, minted: Id)
    requires SplitReview(sys, u, rid, id, routes, position, name, minted).Done?
    ensures rid in sys.reviews && id in sys.sets && sys.sets[id].status == Draft && minted !in sys.feed.stops
    ensures sys.reviews[rid].stop in sys.feed.stops && Splittable(sys.feed, sys.reviews[rid].stop, routes)
    ensures var called := if name.Some? && !Blank(name.value) then Stripped(name.value)
                          else sys.feed.stops[sys.reviews[rid].stop].name;
            var added := SplitList(sys, rid, routes, position, called, minted);
            var now := SplitReview(sys, u, rid, id, routes, position, name, minted).sys;
            && id in now.sets && now.sets[id].changes == sys.sets[id].changes + added
            && now.sets[id].changes[|sys.sets[id].changes|..] == added
            && now.sets[id].status == Draft
            && rid in now.reviews && CarriedBy(now.reviews[rid].link, id)
  {
    hide SplitList, Splittable, SplitClash;
  }

  lemma CallsSplit(live: Feed, f: Feed, sid: Id, minted: Id, routes: seq<Id>, created: Stop)
    requires sid in live.stops && minted !in live.stops && Splittable(live, sid, routes)
    requires SplitsTo(live, f, created, sid, minted, routes)
    ensures RowsSplit(live, f, sid, minted, routes)
  {
    forall r | r in routes
      ensures r in live.rows && r in Calling(live, sid)
    {
      var i :| 0 <= i < |routes| && routes[i] == r;
      assert routes[i] in Calling(live, sid);
    }
    forall r | r in routes {
      SwappedRows(live.rows[r], sid, minted);
    }
    var stays :| stays in Calling(live, sid) && stays !in set rid | rid in routes;
    assert stays in Calling(f, sid);
  }

  // ---- undoing it

  lemma {:induction false} KeepingLength(changes: seq<Change>, review: nat, created: Id)
    ensures |Keeping(changes, review, created)| <= |changes|
    ensures |Keeping(changes, review, created)| == |changes|
       <==> forall i | 0 <= i < |changes| :: !GoesWith(changes[i], review, created)
    ensures (forall i | 0 <= i < |changes| :: !GoesWith(changes[i], review, created)) ==>
              Keeping(changes, review, created) == changes
  {
    if changes != [] {
      var front := changes[..|changes| - 1];
      KeepingLength(front, review, created);
      assert changes == front + [changes[|changes| - 1]];
    }
  }

  lemma {:induction false} KeepingDrops(was: seq<Change>, moved: seq<Change>, review: nat, created: Id)
    requires forall i | 0 <= i < |moved| :: GoesWith(moved[i], review, created)
    ensures Keeping(was + moved, review, created) == Keeping(was, review, created)
  {
    if moved == [] {
      assert was + moved == was;
    } else {
      var front := moved[..|moved| - 1];
      KeepingDrops(was, front, review, created);
      assert (was + moved)[..|was + moved| - 1] == was + front;
    }
  }

  lemma SplitListsGo(live: Feed, sid: Id, minted: Id, routes: seq<Id>, rid: nat, next: nat)
    requires Splittable(live, sid, routes)
    ensures |SplitChanges(live, sid, minted, routes, rid, next)| == |routes|
    ensures forall i | 0 <= i < |routes| :: GoesWith(SplitChanges(live, sid, minted, routes, rid, next)[i], rid, minted)
  {
    SplitChangesOk(live, sid, minted, routes, rid, next);
    forall i | 0 <= i < |routes|
      ensures GoesWith(SplitChanges(live, sid, minted, routes, rid, next)[i], rid, minted)
    {
      var rows := RowsOf(live.rows, routes[i]);
      assert routes[i] in Calling(live, sid);
      var k :| 0 <= k < |rows| && rows[k].stop == Some(sid);
      assert Renamed(rows, sid, minted)[k].stop == Some(minted);
    }
  }

  lemma {:induction false} IndexOfFirst(changes: seq<Change>, i: nat)
    requires i < |changes|
    requires forall k | 0 <= k < i :: changes[k].id != changes[i].id
    ensures IndexOf(changes, changes[i].id) == i
  {
  }

  /** What taking the split's creation out of the draft leaves of its changes. */
  lemma RemovalLeaves(sys: System, rid: nat, was: seq<Change>, routes: seq<Id>, position: Position, called: string, minted: Id)
    requires rid in sys.reviews && Splittable(sys.feed, sys.reviews[rid].stop, routes)
    ensures var all := was + SplitList(sys, rid, routes, position, called, minted);
            Left(all, |was|, true) == Keeping(was, rid, minted)
  {
    var added := SplitList(sys, rid, routes, position, called, minted);
    var all := was + added;
    assert all[|was|] == added[0];
    assert all[..|was|] + all[|was| + 1..] == was + added[1..];
    SplitListsGo(sys.feed, sys.reviews[rid].stop, minted, routes, rid, sys.nextChange + 1);
    KeepingDrops(was, added[1..], rid, minted);
  }

  /** Taking the split's creation out of the draft restores the change list it had
      before, exactly when no stop list of the review named the new stop before. */
  lemma SplitCanBeUndone(sys: System, u: User, rid: nat, id: SetId, routes: seq<Id>, position: Position,
                         name: Option<string>, minted: Id, v: User)
    requires Tied(sys) && SplitReview(sys, u, rid, id, routes, position, name, minted).Done? && Rank(v.role) >= 1
    ensures var now := SplitReview(sys, u, rid, id, routes, position, name, minted).sys;
            var was := sys.sets[id].changes;
            && RemoveChange(now, v, id, sys.nextChange).Done?
            && var undone := RemoveChange(now, v, id, sys.nextChange).sys;
            && id in undone.sets
            && (undone.sets[id].changes == was <==> forall i | 0 <= i < |was| :: !GoesWith(was[i], rid, minted))
  {
    hide SplitReview, RemoveChange, SplitList, Splittable, Left, Whole, Relinked, Tied;
    var now := SplitReview(sys, u, rid, id, routes, position, name, minted).sys;
    SplitAppends(sys, u, rid, id, routes, position, name, minted);
    var was := sys.sets[id].changes;
    var called := if name.Some? && !Blank(name.value) then Stripped(name.value)
                  else sys.feed.stops[sys.reviews[rid].stop].name;
    var all := was + SplitList(sys, rid, routes, position, called, minted);
    SplitIsFirst(sys, rid, id, routes, position, called, minted);
    RemoveCreation(now, v, id, sys.nextChange, rid, |was|);
    RemovalLeaves(sys, rid, was, routes, position, called, minted);
    KeepingLength(was, rid, minted);
  }

  lemma SplitIsFirst(sys: System, rid: nat, id: SetId, routes: seq<Id>, position: Position, called: string, minted: Id)
    requires Tied(sys) && rid in sys.reviews && id in sys.sets
    ensures var all := sys.sets[id].changes + SplitList(sys, rid, routes, position, called, minted);
            var n := |sys.sets[id].changes|;
            n < |all| && all[n].id == sys.nextChange && all[n].edit.StopCreate? && all[n].review == Some(rid)
            && IndexOf(all, sys.nextChange) == n
  {
    var was := sys.sets[id].changes;
    assert ChangesOk(was, sys.nextChange);
    var all := was + SplitList(sys, rid, routes, position, called, minted);
    assert forall k | 0 <= k < |was| :: all[k] == was[k];
    IndexOfFirst(all, |was|);
  }

  lemma RemoveCreation(sys: System, v: User, id: SetId, cid: nat, rid: nat, i: nat)
    requires id in sys.sets && sys.sets[id].status == Draft && Rank(v.role) >= 1
    requires i < |sys.sets[id].changes| && IndexOf(sys.sets[id].changes, cid) == i
    requires sys.sets[id].changes[i].edit.StopCreate? && sys.sets[id].changes[i].review == Some(rid)
    requires rid in sys.reviews && CarriedBy(sys.reviews[rid].link, id)
    ensures RemoveChange(sys, v, id, cid).Done?
    ensures var now := RemoveChange(sys, v, id, cid).sys;
            id in now.sets && now.sets[id].changes == Left(sys.sets[id].changes, i, true)
  {
    hide Keeping, Relinked;
    RemoveAccepted(sys, v, id, cid, i);
    var at := RemoveIs(sys, v, id, cid);
  }

  lemma RemoveAccepted(sys: System, v: User, id: SetId, cid: nat, i: nat)
    requires id in sys.sets && sys.sets[id].status == Draft && Rank(v.role) >= 1
    requires i < |sys.sets[id].changes| && IndexOf(sys.sets[id].changes, cid) == i
    ensures RemoveChange(sys, v, id, cid).Done?
  {
    hide AfterRemoval;
  }
}
