/** The store's tables with their call index, and the overlay that replays a
    draft over them. */
module Storage {
  import opened Records
  import opened Replay
  import opened CallIndex
  import opened Tables
  import opened Texts

  class Store {
    var stops: map<Id, Stop>
    var routes: map<Id, Route>
    var rows: map<Id, seq<Row>>
    var stopRoutes: Index

    function Tables(): Feed
      reads this
    {
      Feed(stops, routes, rows)
    }

    ghost predicate Valid()
      reads this
    {
      Indexed(rows, stopRoutes)
    }

    constructor (feed: Feed)
      ensures Valid() && Tables() == feed
    {
      stops, routes, rows := feed.stops, feed.routes, map[];
      stopRoutes := map[];
      new;
      var todo := feed.rows.Keys;
      while todo != {}
        invariant todo <= feed.rows.Keys
        invariant stops == feed.stops && routes == feed.routes
        invariant PartlyWritten(map[], rows, feed.rows, todo)
        invariant Valid()
      {
        var rid :| rid in todo;
        OneMoreWritten(map[], rows, feed.rows, todo, rid);
        ReplaceRows(rid, feed.rows[rid]);
        todo := todo - {rid};
      }
      AllWritten(map[], rows, feed.rows);
    }

    /** Re-index one route whose rows were replaced: every entry of the route goes
        from the stops its old rows named, and its new rows' calls are appended. */
    method IndexRoute(rid: Id, was: seq<Row>)
      requires IndexedExcept(rows, stopRoutes, rid, was)
      modifies this`stopRoutes
      ensures Valid()
    {
      DropEntries(rid, was);
      var now := RowsOf(rows, rid);
      for i := 0 to |now|
        invariant IndexedExcept(rows, stopRoutes, rid, now[..i])
      {
        var row := now[i];
        assert now[..i + 1] == now[..i] + [row];
        OneMoreIndexed(rows, stopRoutes, rid, now[..i], row);
        stopRoutes := WithCall(stopRoutes, rid, row);
      }
      assert now[..|now|] == now;
    }

    method DropEntries(rid: Id, was: seq<Row>)
      requires IndexedExcept(rows, stopRoutes, rid, was)
      modifies this`stopRoutes
      ensures IndexedExcept(rows, stopRoutes, rid, [])
    {
      NoneDropped(rows, stopRoutes, rid, was);
      var todo := NamedStops(was);
      while todo != {}
        invariant PartlyDropped(rows, stopRoutes, rid, was, todo)
      {
        var sid :| sid in todo;
        OneMoreDropped(rows, stopRoutes, rid, was, todo, sid);
        stopRoutes := stopRoutes[sid := Without(At(stopRoutes, sid), rid)];
        todo := todo - {sid};
      }
    }

    method ReplaceRows(rid: Id, list: seq<Row>)
      requires Valid()
      modifies this`rows, this`stopRoutes
      ensures Valid()
      ensures rows == old(rows)[rid := list]
    {
      var was := RowsOf(rows, rid);
      rows := rows[rid := list];
      assert forall r: Id | r != rid :: RowsOf(rows, r) == RowsOf(old(rows), r);
      IndexRoute(rid, was);
    }

    /** A draft goes live: every record its projection holds is written with its
        next version, and each route it rewrote is indexed again. */
    method ApplyCommit(changes: seq<Change>)
      requires Valid()
      modifies this
      ensures Valid()
      ensures Tables() == AfterCommit(old(Tables()), changes)
    {
      hide Indexed, Replayed, Over;
      var proj := new Projection(this, changes);
      WriteStops(proj);
      WriteRoutes(proj);
      WriteRows(proj);
    }

    method WriteStops(proj: Projection)
      requires proj.store == this
      modifies this`stops
      ensures stops == Published(old(Tables()), proj.Overlay()).stops
    {
      ghost var was := stops;
      ghost var writes := map sid | sid in proj.stops :: proj.stops[sid].(version := NextStopVersion(was, sid));
      assert writes.Keys == proj.stops.Keys;
      var todo := proj.stops.Keys;
      while todo != {}
        invariant PartlyWritten(was, stops, writes, todo)
      {
        var sid :| sid in todo;
        OneMoreWritten(was, stops, writes, todo, sid);
        var version := if sid in stops then stops[sid].version + 1 else 1;
        stops := stops[sid := proj.stops[sid].(version := version)];
        todo := todo - {sid};
      }
      AllWritten(was, stops, writes);
    }

    method WriteRoutes(proj: Projection)
      requires proj.store == this
      modifies this`routes
      ensures routes == Published(old(Tables()), proj.Overlay()).routes
    {
      ghost var was := routes;
      ghost var writes := map rid | rid in proj.routes :: proj.routes[rid].(version := NextRouteVersion(was, rid));
      assert writes.Keys == proj.routes.Keys;
      var todo := proj.routes.Keys;
      while todo != {}
        invariant PartlyWritten(was, routes, writes, todo)
      {
        var rid :| rid in todo;
        OneMoreWritten(was, routes, writes, todo, rid);
        var version := if rid in routes then routes[rid].version + 1 else 1;
        routes := routes[rid := proj.routes[rid].(version := version)];
        todo := todo - {rid};
      }
      AllWritten(was, routes, writes);
    }

    method WriteRows(proj: Projection)
      requires proj.store == this && Valid()
      modifies this`rows, this`stopRoutes
      ensures Valid()
      ensures rows == old(rows) + proj.rows
    {
      ghost var was := rows;
      var todo := proj.rows.Keys;
      while todo != {}
        invariant PartlyWritten(was, rows, proj.rows, todo)
        invariant Valid()
      {
        var rid :| rid in todo;
        OneMoreWritten(was, rows, proj.rows, todo, rid);
        ReplaceRows(rid, proj.rows[rid]);
        todo := todo - {rid};
      }
      AllWritten(was, rows, proj.rows);
    }
  }

  /** The platforms wanted that are still to be taken after the first `i`. */
  function Untaken(want: seq<Id>, now: map<Id, Stop>, i: nat): set<Id>
    requires i <= |want|
  {
    set sid | sid in want && sid in now && sid !in want[..i]
  }

  lemma UntakenNext(want: seq<Id>, now: map<Id, Stop>, i: nat)
    requires i < |want|
    ensures Untaken(want, now, i + 1) == Untaken(want, now, i) - {want[i]}
  {
    assert want[..i + 1] == want[..i] + [want[i]];
  }

  lemma UntakenEnds(want: seq<Id>, now: map<Id, Stop>)
    ensures Untaken(want, now, 0) == set sid | sid in want && sid in now
    ensures Untaken(want, now, |want|) == {}
  {
    assert want[..|want|] == want;
  }

  /** The live data with a change list applied, holding only what it changed. */
  class Projection {
    const store: Store
    var stops: map<Id, Stop>
    var routes: map<Id, Route>
    var rows: map<Id, seq<Row>>

    function Overlay(): Feed
      reads this
    {
      Feed(stops, routes, rows)
    }

    /** The whole tables this projection stands for. */
    function View(): Feed
      reads this, store
    {
      Over(store.Tables(), Overlay())
    }

    constructor (store: Store, changes: seq<Change>)
      requires store.Valid()
      ensures this.store == store
      ensures Overlay() == Replayed(store.Tables(), changes)
      ensures View() == Projected(store.Tables(), changes)
    {
      this.store := store;
      stops, routes, rows := map[], map[], map[];
      new;
      assert changes[..0] == [];
      for i := 0 to |changes|
        invariant this.store == store && unchanged(store)
        invariant Overlay() == Replayed(store.Tables(), changes[..i])
      {
        assert changes[..i + 1] == changes[..i] + [changes[i]];
        ProjectedAppend(store.Tables(), changes[..i], changes[i]);
        Apply(changes[i]);
      }
      assert changes[..|changes|] == changes;
    }

    function FindStop(sid: Id): (r: Option<Stop>)
      reads this, store
      ensures r == Lookup(View().stops, sid)
    {
      if sid in stops then Some(stops[sid]) else Lookup(store.stops, sid)
    }

    function FindRoute(rid: Id): (r: Option<Route>)
      reads this, store
      ensures r == Lookup(View().routes, rid)
    {
      if rid in routes then Some(routes[rid]) else Lookup(store.routes, rid)
    }

    function RouteRows(rid: Id): (r: seq<Row>)
      reads this, store
      ensures r == RowsOf(View().rows, rid)
    {
      if rid in rows then rows[rid] else RowsOf(store.rows, rid)
    }

    /** From the live index, less the routes the draft rewrote, plus those of them
        that name the stop: the same routes as a scan of every projected list. */
    function Using(sid: Id): (r: set<Id>)
      requires store.Valid()
      reads this, store
      ensures r == RoutesUsing(View().rows, sid)
    {
      IndexFindsRoutes(store.rows, store.stopRoutes, sid);
      var live := set e | e in At(store.stopRoutes, sid) :: e.route;
      (live - rows.Keys) + set rid | rid in rows && Names(rows[rid], sid)
    }

    /** From the live children, adjusted by every stop the draft wrote. */
    function Platforms(station: Id): (r: set<Id>)
      reads this, store
      ensures r == Children(View().stops, station)
    {
      (Children(store.stops, station) - stops.Keys) + Children(stops, station)
    }

    method Put(sid: Id, st: Stop)
      modifies this`stops
      ensures stops == old(stops)[sid := st] == old(stops) + map[sid := st]
    {
      WrittenLast(stops, map[], sid, st);
      stops := stops[sid := st];
    }

    /** Replays one change on the overlay. */
    method Apply(ch: Change)
      requires store.Valid()
      modifies this
      ensures Overlay() == Over(old(Overlay()), Effect(old(View()), ch))
    {
      AddNothing(stops);
      AddNothing(routes);
      AddNothing(rows);
      var e := ch.edit;
      if e.StopMerge? {
        ApplyStopMerge(ch);
      } else if OnStop(e) {
        ApplyStopEdit(ch);
      } else if e.RowsReplace? {
        ApplyRows(ch);
      } else if e.StationDelete? {
        ApplyStationDelete(ch);
      } else if e.StationMerge? {
        ApplyStationMerge(ch);
      } else if OnStation(e) {
        ApplyStationEdit(ch);
      } else {
        ApplyRouteEdit(ch);
      }
    }

    method ApplyStopEdit(ch: Change)
      requires ch.edit.StopCreate? || ch.edit.StopUpdate? || ch.edit.StopDelete?
      modifies this`stops
      ensures stops == old(stops) + StopWrites(old(View()).stops, ch)
    {
      var found := FindStop(ch.key);
      match ch.edit {
        case StopCreate(name, position, platform) =>
          Put(ch.key, Stop(name, position, 0, None, Stored(platform), false, None, 1));
        case StopUpdate(name, position, platform) =>
          if found.Some? {
            var st := found.value;
            Put(ch.key, st.(name := Given(name, st.name), position := Given(position, st.position),
                            platform := if platform.Some? then Stored(platform.value) else st.platform));
          }
        case StopDelete =>
          if found.Some? {
            Put(ch.key, found.value.(deleted := true));
          }
      }
    }

    method ApplyRouteEdit(ch: Change)
      requires ch.edit.RouteCreate? || ch.edit.RouteUpdate? || ch.edit.RouteDelete?
      modifies this`routes
      ensures routes == old(routes) + RouteWrites(old(View()).routes, ch)
    {
      hide Over;
      var found := FindRoute(ch.key);
      match ch.edit {
        case RouteCreate(shortName) =>
          routes := routes[ch.key := Route(shortName, true, false, 1)];
        case RouteUpdate(shortName, active) =>
          if found.Some? {
            var rt := found.value;
            routes := routes[ch.key := rt.(shortName := Given(shortName, rt.shortName), active := Given(active, rt.active))];
          }
        case RouteDelete =>
          if found.Some? {
            routes := routes[ch.key := found.value.(deleted := true)];
          }
      }
    }

    method ApplyRows(ch: Change)
      requires ch.edit.RowsReplace?
      modifies this`rows
      ensures rows == old(rows) + RowWrites(old(View()), ch)
    {
      WrittenLast(rows, map[], ch.key, Renumbered(ch.edit.rows));
      rows := rows[ch.key := Renumbered(ch.edit.rows)];
    }

    method ApplyStopMerge(ch: Change)
      requires store.Valid() && ch.edit.StopMerge?
      modifies this`stops, this`rows
      ensures stops == old(stops) + StopWrites(old(View()).stops, ch)
      ensures rows == old(rows) + RowWrites(old(View()), ch)
    {
      var key, into := ch.key, ch.edit.into;
      var frm, stays := FindStop(key), FindStop(into);
      if frm.Some? && stays.Some? {
        var kept, gone := Kept(frm.value, stays.value, ch.edit.keep), frm.value.(deleted := true, mergedInto := Some(into));
        Put(into, kept);
        Put(key, gone);
        RenameRows(key, into);
        LayersAssociate(old(stops), map[into := kept], map[key := gone]);
      }
    }

    /** Every route row on the stop that goes switches to the one that stays. */
    method RenameRows(key: Id, into: Id)
      requires store.Valid()
      modifies this`rows
      ensures rows == old(rows) + map rid | rid in RoutesUsing(old(View()).rows, key) ::
                                    Renamed(old(View()).rows[rid], key, into)
    {
      ghost var was, before := rows, View().rows;
      var todo := Using(key);
      ghost var writes := map rid | rid in todo :: Renamed(before[rid], key, into);
      while todo != {}
        invariant PartlyWritten(was, rows, writes, todo)
      {
        var rid :| rid in todo;
        OneMoreWritten(was, rows, writes, todo, rid);
        assert RouteRows(rid) == before[rid];
        rows := rows[rid := Renamed(RouteRows(rid), key, into)];
        todo := todo - {rid};
      }
      AllWritten(was, rows, writes);
    }

    method ApplyStationEdit(ch: Change)
      requires ch.edit.StationCreate? || ch.edit.StationUpdate?
      modifies this`stops
      ensures stops == old(stops) + StationEditWrites(old(View()).stops, ch)
    {
      match ch.edit {
        case StationCreate(name, position, members) =>
          ApplyStation(ch.key, Stop(name, position, 1, None, None, false, None, 1), members);
        case StationUpdate(name, position, members) =>
          var found := FindStop(ch.key);
          var base := if found.Some? then found.value else Stop("", Position(0, 0), 1, None, None, false, None, 1);
          ApplyStation(ch.key, base.(name := Given(name, base.name), position := Given(position, base.position)), members);
      }
    }

    method ApplyStation(key: Id, station: Stop, members: Option<Members>)
      modifies this`stops
      ensures stops == old(stops) + StationWrites(old(View()).stops, key, station, members)
    {
      hide Joined, Kept, Given;
      Put(key, station);
      ghost var own := map[key := station];
      if members.Some? {
        var m := members.value;
        ghost var now := View().stops;
        LayersAssociate(store.stops, old(stops), own);
        ghost var leaving := map sid | sid in Children(now, key) - (set sid | sid in m.want) :: now[sid].(parent := None);
        ghost var joining := map sid | sid in m.want && sid in now :: Joined(now[sid], key, sid, m.codes);
        DropPlatforms(key, m.want);
        TakePlatforms(key, m, now);
        LayersAssociate(old(stops), own, leaving);
        LayersAssociate(old(stops), own + leaving, joining);
      }
    }

    /** Platforms the station no longer lists lose their parent. */
    method DropPlatforms(key: Id, want: seq<Id>)
      modifies this`stops
      ensures stops == old(stops)
                       + map sid | sid in Children(old(View()).stops, key) - (set sid | sid in want) ::
                           old(View()).stops[sid].(parent := None)
    {
      ghost var was, now := stops, View().stops;
      var todo := Platforms(key) - set sid | sid in want;
      ghost var writes := map sid | sid in todo :: now[sid].(parent := None);
      while todo != {}
        invariant PartlyWritten(was, stops, writes, todo)
      {
        var sid :| sid in todo;
        OneMoreWritten(was, stops, writes, todo, sid);
        assert FindStop(sid) == Some(now[sid]);
        Put(sid, FindStop(sid).value.(parent := None));
        todo := todo - {sid};
      }
      AllWritten(was, stops, writes);
    }

    /** Platforms the station lists take it as their parent, and their labels. */
    method TakePlatforms(key: Id, m: Members, ghost now: map<Id, Stop>)
      requires forall sid | sid in m.want :: FindStop(sid) == Lookup(now, sid)
      modifies this`stops
      ensures stops == old(stops) + map sid | sid in m.want && sid in now :: Joined(now[sid], key, sid, m.codes)
    {
      ghost var was := stops;
      ghost var writes := map sid | sid in m.want && sid in now :: Joined(now[sid], key, sid, m.codes);
      UntakenEnds(m.want, now);
      assert writes.Keys == Untaken(m.want, now, 0);
      hide Untaken, PartlyWritten;
      NothingWritten(was, writes);
      for i := 0 to |m.want|
        invariant PartlyWritten(was, stops, writes, Untaken(m.want, now, i))
      {
        var sid := m.want[i];
        UntakenNext(m.want, now, i);
        TakePlatform(key, m, sid, now, was, writes, Untaken(m.want, now, i));
      }
      AllWritten(was, stops, writes);
    }

    /** Writes one platform, whether it was written before or not. */
    method TakePlatform(key: Id, m: Members, sid: Id, ghost now: map<Id, Stop>, ghost was: map<Id, Stop>,
                        ghost writes: map<Id, Stop>, ghost todo: set<Id>)
      requires sid in m.want && PartlyWritten(was, stops, writes, todo)
      requires writes == map s | s in m.want && s in now :: Joined(now[s], key, s, m.codes)
      requires Lookup(now, sid) == if sid in was then Some(was[sid]) else Lookup(store.stops, sid)
      modifies this`stops
      ensures PartlyWritten(was, stops, writes, todo - {sid})
    {
      var found := FindStop(sid);
      if found.Some? {
        if sid in todo {
          OneMoreWritten(was, stops, writes, todo, sid);
        } else {
          assert stops[sid := writes[sid]] == stops && todo - {sid} == todo;
        }
        assert Joined(found.value, key, sid, m.codes) == writes[sid];
        Put(sid, Joined(found.value, key, sid, m.codes));
      } else {
        assert sid !in writes && todo - {sid} == todo;
      }
    }

    method ApplyStationDelete(ch: Change)
      requires ch.edit.StationDelete?
      modifies this`stops
      ensures stops == old(stops) + StationEditWrites(old(View()).stops, ch)
    {
      var key := ch.key;
      var found := FindStop(key);
      if found.Some? {
        Delete(key);
      }
    }

    /** Frees the platforms of a station, then deletes it as they left it. */
    method Delete(key: Id)
      requires key in View().stops
      modifies this`stops
      ensures var freed := Rehomed(old(View()).stops, key, None);
              stops == old(stops) + (freed + map[key := (old(View()).stops + freed)[key].(deleted := true)])
    {
      hide Rehomed, Children;
      ghost var before := View().stops;
      ghost var freed := Rehomed(before, key, None);
      MovePlatforms(key, None);
      LayersAssociate(store.stops, old(stops), freed);
      assert View().stops == before + freed;
      var st := FindStop(key).value.(deleted := true);
      Put(key, st);
      LayersAssociate(old(stops), freed, map[key := st]);
    }

    /** Gives every platform of a station the new parent. */
    method MovePlatforms(key: Id, parent: Option<Id>)
      modifies this`stops
      ensures stops == old(stops) + Rehomed(old(View()).stops, key, parent)
    {
      ghost var was, now := stops, View().stops;
      var todo := Platforms(key);
      ghost var writes := map sid | sid in todo :: now[sid].(parent := parent);
      while todo != {}
        invariant PartlyWritten(was, stops, writes, todo)
      {
        var sid :| sid in todo;
        OneMoreWritten(was, stops, writes, todo, sid);
        assert FindStop(sid) == Some(now[sid]);
        Put(sid, FindStop(sid).value.(parent := parent));
        todo := todo - {sid};
      }
      AllWritten(was, stops, writes);
    }

    /** The kept station as merged, and the platforms of the other moved to it. */
    method KeepAndMove(key: Id, into: Id, st: Stop)
      modifies this`stops
      ensures stops == old(stops) + Adopted(old(View()).stops, key, into, st)
    {
      ghost var kept := map[into := st];
      ghost var now := View().stops + kept;
      Put(into, st);
      LayersAssociate(store.stops, old(stops), kept);
      MovePlatforms(key, Some(into));
      LayersAssociate(old(stops), kept, Rehomed(now, key, Some(into)));
    }

    method ApplyStationMerge(ch: Change)
      requires ch.edit.StationMerge?
      modifies this`stops
      ensures stops == old(stops) + StationEditWrites(old(View()).stops, ch)
    {
      hide Kept, Children;
      var key, into, keep := ch.key, ch.edit.into, ch.edit.keep;
      var frm, stays := FindStop(key), FindStop(into);
      if frm.Some? && stays.Some? {
        ghost var before := View().stops;
        KeepAndMove(key, into, Kept(frm.value, stays.value, keep));
        var gone := frm.value.(deleted := true, parent := None, mergedInto := Some(into));
        Put(key, gone);
        LayersAssociate(old(stops), Adopted(before, key, into, Kept(frm.value, stays.value, keep)), map[key := gone]);
      }
    }
  }
}
