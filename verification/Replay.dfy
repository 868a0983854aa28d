/** What a draft's changes do to a feed: the meaning that the classes of `Storage`
    refine. Every query here is a plain scan of the tables. */
module Replay {
  import opened Records
  import opened Tables
  import opened Texts

  function Nothing(): Feed {
    Feed(map[], map[], map[])
  }

  /** The live tables with an overlay's records in front of them. */
  function Over(live: Feed, overlay: Feed): Feed {
    Feed(live.stops + overlay.stops, live.routes + overlay.routes, live.rows + overlay.rows)
  }

  lemma OverOver(live: Feed, first: Feed, second: Feed)
    ensures Over(Over(live, first), second) == Over(live, Over(first, second))
  {
    LayersAssociate(live.stops, first.stops, second.stops);
    LayersAssociate(live.routes, first.routes, second.routes);
    LayersAssociate(live.rows, first.rows, second.rows);
  }

  // ---- queries

  function Lookup<T>(table: map<Id, T>, id: Id): Option<T> {
    if id in table then Some(table[id]) else None
  }

  /** A route without rows is one with none. */
  function RowsOf(rows: map<Id, seq<Row>>, rid: Id): seq<Row> {
    if rid in rows then rows[rid] else []
  }

  predicate Names(rows: seq<Row>, sid: Id) {
    exists i :: 0 <= i < |rows| && rows[i].stop == Some(sid)
  }

  function RoutesUsing(rows: map<Id, seq<Row>>, sid: Id): set<Id> {
    set rid | rid in rows && Names(rows[rid], sid)
  }

  function Children(stops: map<Id, Stop>, station: Id): set<Id> {
    set sid | sid in stops && stops[sid].parent == Some(station)
  }

  // ---- the records one change writes

  function Renamed(rows: seq<Row>, from: Id, into: Id): seq<Row> {
    seq(|rows|, i requires 0 <= i < |rows| =>
      if rows[i].stop == Some(from) then rows[i].(stop := Some(into)) else rows[i])
  }

  function Renumbered(rows: seq<Row>): seq<Row> {
    seq(|rows|, i requires 0 <= i < |rows| => rows[i].(sequence := i + 1))
  }

  /** The record that stays, with what the merge keeps of the one that goes. */
  function Kept(from: Stop, into: Stop, keep: Keep): Stop {
    into.(name := if keep.nameOfMerged then from.name else into.name,
          position := if keep.positionOfMerged then from.position else into.position)
  }

  function Given<T>(v: Option<T>, otherwise: T): T {
    if v.Some? then v.value else otherwise
  }

  /** A station's own record, its platforms leaving and its platforms joining. */
  function StationWrites(stops: map<Id, Stop>, key: Id, station: Stop, members: Option<Members>): (w: map<Id, Stop>)
    ensures key in w
  {
    var own := map[key := station];
    match members
    case None => own
    case Some(m) =>
      var now := stops + own;
      var leaving := Children(now, key) - (set sid | sid in m.want);
      own
      + (map sid | sid in leaving :: now[sid].(parent := None))
      + (map sid | sid in m.want && sid in now :: Joined(now[sid], key, sid, m.codes))
  }

  function Joined(st: Stop, station: Id, sid: Id, codes: map<Id, Option<string>>): Stop {
    st.(parent := Some(station), platform := if sid in codes then Stored(codes[sid]) else st.platform)
  }

  /** The platforms of a station with another parent. */
  function Rehomed(stops: map<Id, Stop>, key: Id, parent: Option<Id>): map<Id, Stop> {
    map sid | sid in Children(stops, key) :: stops[sid].(parent := parent)
  }

  /** A station as a merge keeps it, with the platforms of the other. */
  function Adopted(stops: map<Id, Stop>, key: Id, into: Id, kept: Stop): map<Id, Stop> {
    var now := stops + map[into := kept];
    map[into := kept] + Rehomed(now, key, Some(into))
  }

  function StationMergeWrites(stops: map<Id, Stop>, key: Id, into: Id, keep: Keep): map<Id, Stop>
    requires key in stops && into in stops
  {
    Adopted(stops, key, into, Kept(stops[key], stops[into], keep))
    + map[key := stops[key].(deleted := true, parent := None, mergedInto := Some(into))]
  }

  function StopWrites(stops: map<Id, Stop>, ch: Change): map<Id, Stop> {
    var key := ch.key;
    match ch.edit
    case StopCreate(name, position, platform) =>
      map[key := Stop(name, position, 0, None, Stored(platform), false, None, 1)]
    case StopUpdate(name, position, platform) =>
      if key !in stops then map[] else
        var st := stops[key];
        map[key := st.(name := Given(name, st.name), position := Given(position, st.position),
                       platform := if platform.Some? then Stored(platform.value) else st.platform)]
    case StopDelete =>
      if key !in stops then map[] else map[key := stops[key].(deleted := true)]
    case StopMerge(into, keep, _) =>
      if key !in stops || into !in stops then map[] else
        map[into := Kept(stops[key], stops[into], keep)]
        + map[key := stops[key].(deleted := true, mergedInto := Some(into))]
    case _ => map[]
  }

  function StationEditWrites(stops: map<Id, Stop>, ch: Change): map<Id, Stop> {
    var key := ch.key;
    match ch.edit
    case StationCreate(name, position, members) =>
      StationWrites(stops, key, Stop(name, position, 1, None, None, false, None, 1), members)
    case StationUpdate(name, position, members) =>
      var base := if key in stops then stops[key]
                  else Stop("", Position(0, 0), 1, None, None, false, None, 1);
      StationWrites(stops, key, base.(name := Given(name, base.name), position := Given(position, base.position)), members)
    case StationDelete =>
      if key !in stops then map[] else
        Rehomed(stops, key, None) + map[key := (stops + Rehomed(stops, key, None))[key].(deleted := true)]
    case StationMerge(into, keep, _) =>
      if key !in stops || into !in stops then map[] else StationMergeWrites(stops, key, into, keep)
    case _ => map[]
  }

  function RouteWrites(routes: map<Id, Route>, ch: Change): map<Id, Route> {
    var key := ch.key;
    match ch.edit
    case RouteCreate(shortName) =>
      map[key := Route(shortName, true, false, 1)]
    case RouteUpdate(shortName, active) =>
      if key !in routes then map[] else
        var rt := routes[key];
        map[key := rt.(shortName := Given(shortName, rt.shortName), active := Given(active, rt.active))]
    case RouteDelete =>
      if key !in routes then map[] else map[key := routes[key].(deleted := true)]
    case _ => map[]
  }

  function RowWrites(f: Feed, ch: Change): map<Id, seq<Row>> {
    match ch.edit
    case RowsReplace(rows, _) =>
      map[ch.key := Renumbered(rows)]
    case StopMerge(into, _, _) =>
      if ch.key !in f.stops || into !in f.stops then map[] else
        map rid | rid in RoutesUsing(f.rows, ch.key) :: Renamed(f.rows[rid], ch.key, into)
    case _ => map[]
  }

  /** The overlay records one change writes. */
  function Effect(f: Feed, ch: Change): Feed {
    Feed(if OnStation(ch.edit) then StationEditWrites(f.stops, ch) else StopWrites(f.stops, ch),
         RouteWrites(f.routes, ch),
         RowWrites(f, ch))
  }

  /** One change applied to whole tables. */
  function Applied(f: Feed, ch: Change): Feed {
    Over(f, Effect(f, ch))
  }

  /** The overlay a change list leaves in front of the live tables. */
  function Replayed(live: Feed, changes: seq<Change>): Feed {
    if changes == [] then Nothing() else
      var before := Replayed(live, changes[..|changes| - 1]);
      Over(before, Effect(Over(live, before), changes[|changes| - 1]))
  }

  /** The live tables with a change list applied. */
  function Projected(live: Feed, changes: seq<Change>): Feed {
    Over(live, Replayed(live, changes))
  }

  lemma ProjectedNothing(live: Feed)
    ensures Projected(live, []) == live
  {
    assert live.stops + map[] == live.stops;
    assert live.routes + map[] == live.routes;
    assert live.rows + map[] == live.rows;
  }

  /** The overlay of a list is the list's changes applied one after the other. */
  lemma ProjectedLast(live: Feed, changes: seq<Change>)
    requires changes != []
    ensures Projected(live, changes)
         == Applied(Projected(live, changes[..|changes| - 1]), changes[|changes| - 1])
  {
    var before := Replayed(live, changes[..|changes| - 1]);
    OverOver(live, before, Effect(Over(live, before), changes[|changes| - 1]));
  }

  lemma ProjectedAppend(live: Feed, changes: seq<Change>, ch: Change)
    ensures Projected(live, changes + [ch]) == Applied(Projected(live, changes), ch)
    ensures Replayed(live, changes + [ch]) == Over(Replayed(live, changes), Effect(Projected(live, changes), ch))
  {
    var all := changes + [ch];
    assert all[..|all| - 1] == changes;
    ProjectedLast(live, all);
  }

  /** A stop merge's overlay touches only the routes that call at the merged stop,
      which is the same as renaming the stop in every route. */
  lemma MergeRenamesEverywhere(f: Feed, ch: Change)
    requires ch.edit.StopMerge? && ch.key in f.stops && ch.edit.into in f.stops
    ensures Applied(f, ch).rows == map rid | rid in f.rows :: Renamed(f.rows[rid], ch.key, ch.edit.into)
  {
    forall rid | rid in f.rows
      ensures Applied(f, ch).rows[rid] == Renamed(f.rows[rid], ch.key, ch.edit.into)
    {
      if rid !in RoutesUsing(f.rows, ch.key) {
        assert !Names(f.rows[rid], ch.key);
        assert f.rows[rid] == Renamed(f.rows[rid], ch.key, ch.edit.into);
      }
    }
  }

  // ---- going live

  /** A written record's version: one more than the live one, or 1. */
  function NextStopVersion(live: map<Id, Stop>, sid: Id): int {
    if sid in live then live[sid].version + 1 else 1
  }

  function NextRouteVersion(live: map<Id, Route>, rid: Id): int {
    if rid in live then live[rid].version + 1 else 1
  }

  /** The tables after an overlay went live: every record it holds, re-versioned. */
  function Published(live: Feed, overlay: Feed): Feed {
    Feed(live.stops + (map sid | sid in overlay.stops :: overlay.stops[sid].(version := NextStopVersion(live.stops, sid))),
         live.routes + (map rid | rid in overlay.routes :: overlay.routes[rid].(version := NextRouteVersion(live.routes, rid))),
         live.rows + overlay.rows)
  }

  /** The tables after a draft went live. */
  function AfterCommit(live: Feed, changes: seq<Change>): Feed {
    Published(live, Replayed(live, changes))
  }

  /** The two feeds answer every stop, route and row query alike, versions apart. */
  ghost predicate SameContent(a: Feed, b: Feed) {
    && a.stops.Keys == b.stops.Keys
    && (forall sid | sid in a.stops :: a.stops[sid].(version := 0) == b.stops[sid].(version := 0))
    && a.routes.Keys == b.routes.Keys
    && (forall rid | rid in a.routes :: a.routes[rid].(version := 0) == b.routes[rid].(version := 0))
    && a.rows == b.rows
  }

  /** A commit publishes exactly what the draft's projection showed, versions apart. */
  lemma CommitPublishesProjection(live: Feed, changes: seq<Change>)
    ensures SameContent(AfterCommit(live, changes), Projected(live, changes))
    ensures forall sid :: RoutesUsing(AfterCommit(live, changes).rows, sid) == RoutesUsing(Projected(live, changes).rows, sid)
    ensures forall key :: Children(AfterCommit(live, changes).stops, key) == Children(Projected(live, changes).stops, key)
  {
    var a, b := AfterCommit(live, changes), Projected(live, changes);
    PublishedContent(live, Replayed(live, changes));
    forall key
      ensures Children(a.stops, key) == Children(b.stops, key)
    {
      SameContentSameChildren(a, b, key);
    }
  }

  lemma PublishedContent(live: Feed, overlay: Feed)
    ensures SameContent(Published(live, overlay), Over(live, overlay))
  {
    hide NextStopVersion, NextRouteVersion;
    PublishedStops(live.stops, overlay.stops);
    PublishedRoutes(live.routes, overlay.routes);
  }

  lemma PublishedStops(live: map<Id, Stop>, overlay: map<Id, Stop>)
    ensures var now := live + map sid | sid in overlay :: overlay[sid].(version := NextStopVersion(live, sid));
            now.Keys == (live + overlay).Keys
            && forall sid | sid in now :: now[sid].(version := 0) == (live + overlay)[sid].(version := 0)
  {
    hide NextStopVersion;
    var now := live + map sid | sid in overlay :: overlay[sid].(version := NextStopVersion(live, sid));
    assert now.Keys == (live + overlay).Keys;
  }

  lemma PublishedRoutes(live: map<Id, Route>, overlay: map<Id, Route>)
    ensures var now := live + map rid | rid in overlay :: overlay[rid].(version := NextRouteVersion(live, rid));
            now.Keys == (live + overlay).Keys
            && forall rid | rid in now :: now[rid].(version := 0) == (live + overlay)[rid].(version := 0)
  {
    hide NextRouteVersion;
    var now := live + map rid | rid in overlay :: overlay[rid].(version := NextRouteVersion(live, rid));
    assert now.Keys == (live + overlay).Keys;
  }

  lemma SameContentSameChildren(a: Feed, b: Feed, key: Id)
    requires SameContent(a, b)
    ensures Children(a.stops, key) == Children(b.stops, key)
  {
    forall sid | sid in a.stops
      ensures a.stops[sid].parent == b.stops[sid].parent
    {
      assert a.stops[sid].(version := 0).parent == b.stops[sid].(version := 0).parent;
    }
  }

  /** Versions never fall, and a record whose version did not rise is untouched. */
  lemma CommitRaisesVersions(live: Feed, changes: seq<Change>)
    ensures forall sid | sid in live.stops ::
              sid in AfterCommit(live, changes).stops
              && live.stops[sid].version <= AfterCommit(live, changes).stops[sid].version
              && (live.stops[sid].version == AfterCommit(live, changes).stops[sid].version
                  ==> live.stops[sid] == AfterCommit(live, changes).stops[sid])
    ensures forall rid | rid in live.routes ::
              rid in AfterCommit(live, changes).routes
              && live.routes[rid].version <= AfterCommit(live, changes).routes[rid].version
              && (live.routes[rid].version == AfterCommit(live, changes).routes[rid].version
                  ==> live.routes[rid] == AfterCommit(live, changes).routes[rid])
    ensures forall sid | sid in Replayed(live, changes).stops && sid in live.stops ::
              live.stops[sid].version < AfterCommit(live, changes).stops[sid].version
    ensures forall rid | rid in Replayed(live, changes).routes && rid in live.routes ::
              live.routes[rid].version < AfterCommit(live, changes).routes[rid].version
  {
  }
}
