/** What each change leaves in the tables, field by field and versions apart: in the
    projection of a draft that ends with it, and in the live data once that draft is
    committed. */
module Updates {
  import opened Records
  import opened Replay
  import opened Tables
  import opened Texts

  predicate SameStop(a: Stop, b: Stop) {
    a.(version := 0) == b.(version := 0)
  }

  predicate SameRoute(a: Route, b: Route) {
    a.(version := 0) == b.(version := 0)
  }

  /** Every stop but those named is as it was, and none is new. */
  ghost predicate OtherStops(f: Feed, g: Feed, but: set<Id>) {
    && g.stops.Keys == f.stops.Keys + but
    && forall sid | sid in f.stops && sid !in but :: SameStop(g.stops[sid], f.stops[sid])
  }

  ghost predicate OtherRoutes(f: Feed, g: Feed, but: set<Id>) {
    && g.routes.Keys == f.routes.Keys + but
    && forall rid | rid in f.routes && rid !in but :: SameRoute(g.routes[rid], f.routes[rid])
  }

  ghost predicate OnlyStops(f: Feed, g: Feed, but: set<Id>) {
    OtherStops(f, g, but) && OtherRoutes(f, g, {}) && g.rows == f.rows
  }

  ghost predicate OnlyRoute(f: Feed, g: Feed, key: Id) {
    OtherStops(f, g, {}) && OtherRoutes(f, g, {key}) && g.rows == f.rows
  }

  /** Nothing but the name and the point of the record differs. */
  predicate OnlyNamedAndPlaced(a: Stop, b: Stop) {
    a.(name := b.name, position := b.position, version := 0) == b.(version := 0)
  }

  ghost predicate StopCreated(f: Feed, g: Feed, ch: Change)
    requires ch.edit.StopCreate?
  {
    && OnlyStops(f, g, {ch.key})
    && var now := g.stops[ch.key];
    && now.name == ch.edit.name && now.position == ch.edit.position && now.platform == Stored(ch.edit.platform)
    && now.locationType == 0 && now.parent == None && !now.deleted && now.mergedInto == None
  }

  /** Each field given takes the value given, and every other field stays. */
  ghost predicate StopUpdated(f: Feed, g: Feed, ch: Change)
    requires ch.edit.StopUpdate?
  {
    if ch.key !in f.stops then OnlyStops(f, g, {}) else
      && OnlyStops(f, g, {ch.key})
      && var was, now, e := f.stops[ch.key], g.stops[ch.key], ch.edit;
      && (e.newName.Some? ==> now.name == e.newName.value)
      && (e.newName.None? ==> now.name == was.name)
      && (e.newPosition.Some? ==> now.position == e.newPosition.value)
      && (e.newPosition.None? ==> now.position == was.position)
      && (e.newPlatform.Some? ==> now.platform == Stored(e.newPlatform.value))
      && (e.newPlatform.None? ==> now.platform == was.platform)
      && now.locationType == was.locationType && now.parent == was.parent
      && now.deleted == was.deleted && now.mergedInto == was.mergedInto
  }

  ghost predicate StopDeleted(f: Feed, g: Feed, ch: Change)
    requires ch.edit.StopDelete?
  {
    if ch.key !in f.stops then OnlyStops(f, g, {}) else
      OnlyStops(f, g, {ch.key}) && SameStop(g.stops[ch.key], f.stops[ch.key].(deleted := true))
  }

  /** The name and the point of the record that stays are the merged one's if the merge
      says so, and else its own. */
  predicate KeepsChosen(from: Stop, into: Stop, now: Stop, keep: Keep) {
    && now.name == (if keep.nameOfMerged then from.name else into.name)
    && now.position == (if keep.positionOfMerged then from.position else into.position)
  }

  /** Each row names the kept stop where it named the merged one, and is else as it was. */
  ghost predicate CallsRenamed(rows: map<Id, seq<Row>>, now: map<Id, seq<Row>>, from: Id, into: Id) {
    && now.Keys == rows.Keys
    && forall rid | rid in rows ::
         && |now[rid]| == |rows[rid]|
         && forall i | 0 <= i < |rows[rid]| ::
              if rows[rid][i].stop == Some(from) then now[rid][i] == rows[rid][i].(stop := Some(into))
              else now[rid][i] == rows[rid][i]
  }

  ghost predicate StopsMerged(f: Feed, g: Feed, ch: Change)
    requires ch.edit.StopMerge?
  {
    var key, into := ch.key, ch.edit.into;
    if key !in f.stops || into !in f.stops then OnlyStops(f, g, {}) else
      && OtherStops(f, g, {key, into}) && OtherRoutes(f, g, {})
      && CallsRenamed(f.rows, g.rows, key, into)
      && SameStop(g.stops[key], f.stops[key].(deleted := true, mergedInto := Some(into)))
      && (into != key ==>
            && KeepsChosen(f.stops[key], f.stops[into], g.stops[into], ch.edit.keep)
            && OnlyNamedAndPlaced(f.stops[into], g.stops[into]))
  }

  ghost predicate RouteCreated(f: Feed, g: Feed, ch: Change)
    requires ch.edit.RouteCreate?
  {
    && OnlyRoute(f, g, ch.key)
    && g.routes[ch.key].shortName == ch.edit.shortName && g.routes[ch.key].active && !g.routes[ch.key].deleted
  }

  ghost predicate RouteUpdated(f: Feed, g: Feed, ch: Change)
    requires ch.edit.RouteUpdate?
  {
    if ch.key !in f.routes then OnlyStops(f, g, {}) else
      && OnlyRoute(f, g, ch.key)
      && var was, now, e := f.routes[ch.key], g.routes[ch.key], ch.edit;
      && (e.newShortName.Some? ==> now.shortName == e.newShortName.value)
      && (e.newShortName.None? ==> now.shortName == was.shortName)
      && (e.newActive.Some? ==> now.active == e.newActive.value)
      && (e.newActive.None? ==> now.active == was.active)
      && now.deleted == was.deleted
  }

  ghost predicate RouteDeleted(f: Feed, g: Feed, ch: Change)
    requires ch.edit.RouteDelete?
  {
    if ch.key !in f.routes then OnlyStops(f, g, {}) else
      OnlyRoute(f, g, ch.key) && SameRoute(g.routes[ch.key], f.routes[ch.key].(deleted := true))
  }

  /** The route has the rows given, numbered from one. */
  ghost predicate RowsReplaced(f: Feed, g: Feed, ch: Change)
    requires ch.edit.RowsReplace?
  {
    && OtherStops(f, g, {}) && OtherRoutes(f, g, {})
    && g.rows.Keys == f.rows.Keys + {ch.key}
    && (forall rid | rid in f.rows && rid != ch.key :: g.rows[rid] == f.rows[rid])
    && |g.rows[ch.key]| == |ch.edit.rows|
    && forall i | 0 <= i < |ch.edit.rows| ::
         g.rows[ch.key][i].sequence == i + 1 && g.rows[ch.key][i] == ch.edit.rows[i].(sequence := i + 1)
  }

  /** A stop's parent and label once a station has the members given, if it names any:
      a member has the station as parent, and the label given if there is one; a stop
      that was a member and is none loses the parent. */
  predicate Housed(was: Stop, now: Stop, sid: Id, station: Id, members: Option<Members>) {
    && (if members.None? then now.parent == was.parent
        else if sid in members.value.want then now.parent == Some(station)
        else if was.parent == Some(station) then now.parent == None
        else now.parent == was.parent)
    && (if members.Some? && sid in members.value.want && sid in members.value.codes
        then now.platform == Stored(members.value.codes[sid]) else now.platform == was.platform)
  }

  /** Nothing but the parent and the label differs. */
  predicate OnlyHoused(a: Stop, b: Stop) {
    a.(parent := b.parent, platform := b.platform, version := 0) == b.(version := 0)
  }

  /** The station has its own new record, and every stop the place the members give it. */
  ghost predicate StationHouses(f: Feed, g: Feed, key: Id, own: Stop, members: Option<Members>) {
    && g.stops.Keys == f.stops.Keys + {key} && OtherRoutes(f, g, {}) && g.rows == f.rows
    && OnlyHoused(own, g.stops[key]) && Housed(own, g.stops[key], key, key, members)
    && forall sid | sid in f.stops && sid != key ::
         OnlyHoused(f.stops[sid], g.stops[sid]) && Housed(f.stops[sid], g.stops[sid], sid, key, members)
  }

  predicate NewStation(ch: Change, own: Stop)
    requires ch.edit.StationCreate?
  {
    && own.name == ch.edit.name && own.position == ch.edit.position && own.locationType == 1
    && own.parent == None && own.platform == None && !own.deleted && own.mergedInto == None
  }

  predicate NamedStation(was: Stop, ch: Change, own: Stop)
    requires ch.edit.StationUpdate?
  {
    var e := ch.edit;
    && OnlyNamedAndPlaced(was, own)
    && (e.newName.Some? ==> own.name == e.newName.value)
    && (e.newName.None? ==> own.name == was.name)
    && (e.newPosition.Some? ==> own.position == e.newPosition.value)
    && (e.newPosition.None? ==> own.position == was.position)
  }

  ghost predicate StationCreated(f: Feed, g: Feed, ch: Change)
    requires ch.edit.StationCreate?
  {
    exists own :: NewStation(ch, own) && StationHouses(f, g, ch.key, own, ch.edit.members)
  }

  /** Of a station that exists: its name and point where given, else as they were. */
  ghost predicate StationUpdated(f: Feed, g: Feed, ch: Change)
    requires ch.edit.StationUpdate?
  {
    ch.key in f.stops ==>
      exists own :: NamedStation(f.stops[ch.key], ch, own) && StationHouses(f, g, ch.key, own, ch.edit.members)
  }

  /** The station is deleted and its platforms have no parent any more. */
  ghost predicate StationDeleted(f: Feed, g: Feed, ch: Change)
    requires ch.edit.StationDelete?
  {
    if ch.key !in f.stops then OnlyStops(f, g, {}) else
      && g.stops.Keys == f.stops.Keys && OtherRoutes(f, g, {}) && g.rows == f.rows
      && forall sid | sid in f.stops ::
           SameStop(g.stops[sid],
             f.stops[sid].(parent := if f.stops[sid].parent == Some(ch.key) then None else f.stops[sid].parent,
                           deleted := sid == ch.key || f.stops[sid].deleted))
  }

  /** A stop other than the station that goes: its parent follows the merge, the station
      that stays is called and placed as the merge says, nothing else differs. */
  predicate Rehoused(stops: map<Id, Stop>, ch: Change, sid: Id, now: Stop)
    requires ch.edit.StationMerge? && ch.key in stops && sid in stops
  {
    var key, into, was := ch.key, ch.edit.into, stops[sid];
    && now.parent == (if was.parent == Some(key) then Some(into) else was.parent)
    && OnlyNamedAndPlaced(was.(parent := now.parent), now)
    && (if sid == into then KeepsChosen(stops[key], was, now, ch.edit.keep)
        else now.name == was.name && now.position == was.position)
  }

  /** Every platform of the station that goes has the one that stays as parent. */
  ghost predicate StationsMerged(f: Feed, g: Feed, ch: Change)
    requires ch.edit.StationMerge?
  {
    var key, into := ch.key, ch.edit.into;
    if key !in f.stops || into !in f.stops then OnlyStops(f, g, {}) else
      && g.stops.Keys == f.stops.Keys && OtherRoutes(f, g, {}) && g.rows == f.rows
      && SameStop(g.stops[key], f.stops[key].(deleted := true, parent := None, mergedInto := Some(into)))
      && forall sid | sid in f.stops && sid != key ::
           Rehoused(f.stops, ch, sid, g.stops[sid])
  }

  ghost predicate Wrote(f: Feed, g: Feed, ch: Change) {
    match ch.edit
    case StopCreate(_, _, _) => StopCreated(f, g, ch)
    case StopUpdate(_, _, _) => StopUpdated(f, g, ch)
    case StopDelete => StopDeleted(f, g, ch)
    case StopMerge(_, _, _) => StopsMerged(f, g, ch)
    case RouteCreate(_) => RouteCreated(f, g, ch)
    case RouteUpdate(_, _) => RouteUpdated(f, g, ch)
    case RouteDelete => RouteDeleted(f, g, ch)
    case RowsReplace(_, _) => RowsReplaced(f, g, ch)
    case StationCreate(_, _, _) => StationCreated(f, g, ch)
    case StationUpdate(_, _, _) => StationUpdated(f, g, ch)
    case StationDelete => StationDeleted(f, g, ch)
    case StationMerge(_, _, _) => StationsMerged(f, g, ch)
  }

  // ---- the tables a change writes

  lemma AppliedTables(f: Feed, ch: Change)
    ensures Applied(f, ch).stops == f.stops + if OnStation(ch.edit) then StationEditWrites(f.stops, ch) else StopWrites(f.stops, ch)
    ensures Applied(f, ch).routes == f.routes + RouteWrites(f.routes, ch)
    ensures Applied(f, ch).rows == f.rows + RowWrites(f, ch)
  {
    hide StationEditWrites, StopWrites, RouteWrites, RowWrites;
  }

  lemma StopEditWrote(f: Feed, ch: Change)
    requires ch.edit.StopCreate? || ch.edit.StopUpdate? || ch.edit.StopDelete?
    ensures Wrote(f, Applied(f, ch), ch)
  {
    AppliedTables(f, ch);
    AddNothing(f.routes);
    AddNothing(f.rows);
    AddNothing(f.stops);
    hide Applied;
  }

  lemma RouteEditWrote(f: Feed, ch: Change)
    requires ch.edit.RouteCreate? || ch.edit.RouteUpdate? || ch.edit.RouteDelete?
    ensures Wrote(f, Applied(f, ch), ch)
  {
    AppliedTables(f, ch);
    AddNothing(f.routes);
    AddNothing(f.rows);
    AddNothing(f.stops);
    hide Applied;
  }

  lemma RowsWrote(f: Feed, ch: Change)
    requires ch.edit.RowsReplace?
    ensures Wrote(f, Applied(f, ch), ch)
  {
    AppliedTables(f, ch);
    AddNothing(f.routes);
    AddNothing(f.stops);
    hide Applied;
  }

  lemma MergedStops(stops: map<Id, Stop>, ch: Change)
    requires ch.edit.StopMerge? && ch.key in stops && ch.edit.into in stops
    ensures var now, key, into := stops + StopWrites(stops, ch), ch.key, ch.edit.into;
            && now.Keys == stops.Keys
            && (forall sid | sid in stops && sid != key && sid != into :: now[sid] == stops[sid])
            && now[key] == stops[key].(deleted := true, mergedInto := Some(into))
            && (into != key ==>
                  KeepsChosen(stops[key], stops[into], now[into], ch.edit.keep) && OnlyNamedAndPlaced(stops[into], now[into]))
  {
    assert (stops + StopWrites(stops, ch)).Keys == stops.Keys;
  }

  lemma RenamedCalls(rows: map<Id, seq<Row>>, from: Id, into: Id)
    ensures CallsRenamed(rows, map rid | rid in rows :: Renamed(rows[rid], from, into), from, into)
  {
  }

  /** A stop merge from what the three tables are after it. */
  lemma MergedIsWrote(f: Feed, g: Feed, ch: Change)
    requires ch.edit.StopMerge? && ch.key in f.stops && ch.edit.into in f.stops
    requires g.routes == f.routes && CallsRenamed(f.rows, g.rows, ch.key, ch.edit.into)
    requires g.stops.Keys == f.stops.Keys
    requires forall sid | sid in f.stops && sid != ch.key && sid != ch.edit.into :: g.stops[sid] == f.stops[sid]
    requires g.stops[ch.key] == f.stops[ch.key].(deleted := true, mergedInto := Some(ch.edit.into))
    requires ch.edit.into != ch.key ==>
               KeepsChosen(f.stops[ch.key], f.stops[ch.edit.into], g.stops[ch.edit.into], ch.edit.keep)
               && OnlyNamedAndPlaced(f.stops[ch.edit.into], g.stops[ch.edit.into])
    ensures StopsMerged(f, g, ch)
  {
    hide CallsRenamed, KeepsChosen, OnlyNamedAndPlaced;
  }

  lemma StopMergeWrote(f: Feed, ch: Change)
    requires ch.edit.StopMerge?
    ensures Wrote(f, Applied(f, ch), ch)
  {
    AppliedTables(f, ch);
    AddNothing(f.routes);
    if ch.key in f.stops && ch.edit.into in f.stops {
      MergeRenamesEverywhere(f, ch);
      RenamedCalls(f.rows, ch.key, ch.edit.into);
      MergedStops(f.stops, ch);
      hide Applied, RowWrites, StopWrites, CallsRenamed, Renamed, KeepsChosen, OnlyNamedAndPlaced, StopsMerged;
      MergedIsWrote(f, Applied(f, ch), ch);
    } else {
      AddNothing(f.rows);
      AddNothing(f.stops);
      hide Applied;
    }
  }

  /** A station's own record and its members, stop by stop. */
  lemma HousedStop(stops: map<Id, Stop>, key: Id, own: Stop, members: Option<Members>, sid: Id)
    requires sid in stops || sid == key
    ensures var now, was := stops + StationWrites(stops, key, own, members), if sid == key then own else stops[sid];
            sid in now && OnlyHoused(was, now[sid]) && Housed(was, now[sid], sid, key, members)
  {
  }

  lemma HousedKeys(stops: map<Id, Stop>, key: Id, own: Stop, members: Option<Members>)
    ensures (stops + StationWrites(stops, key, own, members)).Keys == stops.Keys + {key}
  {
  }

  lemma HousedStops(f: Feed, g: Feed, key: Id, own: Stop, members: Option<Members>)
    requires g.stops == f.stops + StationWrites(f.stops, key, own, members)
    requires g.routes == f.routes && g.rows == f.rows
    ensures StationHouses(f, g, key, own, members)
  {
    hide StationWrites, OnlyHoused, Housed;
    HousedKeys(f.stops, key, own, members);
    HousedStop(f.stops, key, own, members, key);
    forall sid | sid in f.stops && sid != key
      ensures OnlyHoused(f.stops[sid], g.stops[sid]) && Housed(f.stops[sid], g.stops[sid], sid, key, members)
    {
      HousedStop(f.stops, key, own, members, sid);
    }
  }

  lemma StationTables(f: Feed, ch: Change)
    requires OnStation(ch.edit)
    ensures Applied(f, ch).stops == f.stops + StationEditWrites(f.stops, ch)
    ensures Applied(f, ch).routes == f.routes && Applied(f, ch).rows == f.rows
  {
    AppliedTables(f, ch);
    AddNothing(f.routes);
    AddNothing(f.rows);
    hide Applied, StationEditWrites;
  }

  lemma StationCreateWrote(f: Feed, ch: Change)
    requires ch.edit.StationCreate?
    ensures StationCreated(f, Applied(f, ch), ch)
  {
    var own := Stop(ch.edit.name, ch.edit.position, 1, None, None, false, None, 1);
    assert StationEditWrites(f.stops, ch) == StationWrites(f.stops, ch.key, own, ch.edit.members);
    hide Applied, StationWrites, StationHouses;
    StationTables(f, ch);
    HousedStops(f, Applied(f, ch), ch.key, own, ch.edit.members);
  }

  lemma StationUpdateWrote(f: Feed, ch: Change)
    requires ch.edit.StationUpdate?
    ensures StationUpdated(f, Applied(f, ch), ch)
  {
    if ch.key in f.stops {
      var was, e := f.stops[ch.key], ch.edit;
      var own := was.(name := if e.newName.Some? then e.newName.value else was.name,
                      position := if e.newPosition.Some? then e.newPosition.value else was.position);
      assert StationEditWrites(f.stops, ch) == StationWrites(f.stops, ch.key, own, ch.edit.members);
      hide Applied, StationWrites, StationHouses;
      StationTables(f, ch);
      HousedStops(f, Applied(f, ch), ch.key, own, ch.edit.members);
    }
  }

  lemma FreedStops(stops: map<Id, Stop>, ch: Change)
    requires ch.edit.StationDelete? && ch.key in stops
    ensures var now := stops + StationEditWrites(stops, ch);
            && now.Keys == stops.Keys
            && forall sid | sid in stops ::
                 now[sid] == stops[sid].(parent := if stops[sid].parent == Some(ch.key) then None else stops[sid].parent,
                                         deleted := sid == ch.key || stops[sid].deleted)
  {
    assert (stops + StationEditWrites(stops, ch)).Keys == stops.Keys;
  }

  lemma StationDeleteWrote(f: Feed, ch: Change)
    requires ch.edit.StationDelete?
    ensures StationDeleted(f, Applied(f, ch), ch)
  {
    StationTables(f, ch);
    if ch.key in f.stops {
      FreedStops(f.stops, ch);
    } else {
      AddNothing(f.stops);
    }
    hide Applied;
  }

  lemma RehousedStop(stops: map<Id, Stop>, ch: Change, sid: Id)
    requires ch.edit.StationMerge? && ch.key in stops && ch.edit.into in stops && sid in stops && sid != ch.key
    ensures sid in stops + StationEditWrites(stops, ch) && Rehoused(stops, ch, sid, (stops + StationEditWrites(stops, ch))[sid])
  {
  }

  lemma RehousedKey(stops: map<Id, Stop>, ch: Change)
    requires ch.edit.StationMerge? && ch.key in stops && ch.edit.into in stops
    ensures var now := stops + StationEditWrites(stops, ch);
            && now.Keys == stops.Keys
            && now[ch.key] == stops[ch.key].(deleted := true, parent := None, mergedInto := Some(ch.edit.into))
  {
    assert (stops + StationEditWrites(stops, ch)).Keys == stops.Keys;
  }

  lemma StationMergeWrote(f: Feed, ch: Change)
    requires ch.edit.StationMerge?
    ensures StationsMerged(f, Applied(f, ch), ch)
  {
    StationTables(f, ch);
    var g := Applied(f, ch);
    if ch.key in f.stops && ch.edit.into in f.stops {
      hide Applied, StationEditWrites, KeepsChosen, OnlyNamedAndPlaced;
      RehousedKey(f.stops, ch);
      forall sid | sid in f.stops && sid != ch.key
        ensures Rehoused(f.stops, ch, sid, g.stops[sid])
      {
        RehousedStop(f.stops, ch, sid);
      }
    } else {
      AddNothing(f.stops);
      hide Applied;
    }
  }

  lemma ChangeWrote(f: Feed, ch: Change)
    ensures Wrote(f, Applied(f, ch), ch)
  {
    hide Applied, StationCreated, StationUpdated, StationDeleted, StationsMerged;
    match ch.edit
    case StopCreate(_, _, _) => StopEditWrote(f, ch);
    case StopUpdate(_, _, _) => StopEditWrote(f, ch);
    case StopDelete => StopEditWrote(f, ch);
    case StopMerge(_, _, _) => StopMergeWrote(f, ch);
    case RouteCreate(_) => RouteEditWrote(f, ch);
    case RouteUpdate(_, _) => RouteEditWrote(f, ch);
    case RouteDelete => RouteEditWrote(f, ch);
    case RowsReplace(_, _) => RowsWrote(f, ch);
    case StationCreate(_, _, _) => StationCreateWrote(f, ch);
    case StationUpdate(_, _, _) => StationUpdateWrote(f, ch);
    case StationDelete => StationDeleteWrote(f, ch);
    case StationMerge(_, _, _) => StationMergeWrote(f, ch);
  }

  // ---- in the projection, and once live

  /** The projection of a draft differs from the projection of all but its last change
      by what that change writes. */
  lemma ProjectionWrites(live: Feed, front: seq<Change>, ch: Change)
    ensures Wrote(Projected(live, front), Projected(live, front + [ch]), ch)
  {
    hide *;
    ChangeWrote(Projected(live, front), ch);
    ProjectedAppend(live, front, ch);
  }

  lemma SameStops(f: Feed, g: Feed, h: Feed, but: set<Id>)
    requires SameContent(h, g)
    ensures OtherStops(f, g, but) ==> OtherStops(f, h, but)
    ensures OtherRoutes(f, g, but) ==> OtherRoutes(f, h, but)
    ensures h.rows == g.rows && h.stops.Keys == g.stops.Keys && h.routes.Keys == g.routes.Keys
    ensures forall sid | sid in g.stops :: SameStop(h.stops[sid], g.stops[sid])
    ensures forall rid | rid in g.routes :: SameRoute(h.routes[rid], g.routes[rid])
  {
  }

  lemma StopFields(a: Stop, b: Stop)
    requires SameStop(a, b)
    ensures a.name == b.name && a.position == b.position && a.locationType == b.locationType && a.parent == b.parent
    ensures a.platform == b.platform && a.deleted == b.deleted && a.mergedInto == b.mergedInto
  {
    assert a.(version := 0).name == a.name && b.(version := 0).name == b.name;
    assert a.(version := 0).parent == a.parent && b.(version := 0).parent == b.parent;
  }

  lemma RouteFields(a: Route, b: Route)
    requires SameRoute(a, b)
    ensures a.shortName == b.shortName && a.active == b.active && a.deleted == b.deleted
  {
    assert a.(version := 0).shortName == a.shortName && b.(version := 0).shortName == b.shortName;
  }

  lemma StationStays(f: Feed, g: Feed, h: Feed, key: Id, own: Stop, members: Option<Members>)
    requires SameContent(h, g) && StationHouses(f, g, key, own, members)
    ensures StationHouses(f, h, key, own, members)
  {
    SameStops(f, g, h, {});
    forall sid | sid in g.stops
      ensures SameStop(h.stops[sid], g.stops[sid])
    {
      StopFields(h.stops[sid], g.stops[sid]);
    }
  }

  lemma MergeStays(f: Feed, g: Feed, h: Feed, ch: Change)
    requires SameContent(h, g) && ch.edit.StationMerge? && StationsMerged(f, g, ch)
    ensures StationsMerged(f, h, ch)
  {
    SameStops(f, g, h, {});
    if ch.key in f.stops && ch.edit.into in f.stops {
      forall sid | sid in f.stops && sid != ch.key
        ensures Rehoused(f.stops, ch, sid, h.stops[sid])
      {
        StopFields(h.stops[sid], g.stops[sid]);
      }
    }
  }

  lemma StopEditStays(f: Feed, g: Feed, h: Feed, ch: Change)
    requires SameContent(h, g) && Wrote(f, g, ch)
    requires ch.edit.StopCreate? || ch.edit.StopUpdate? || ch.edit.StopDelete?
    ensures Wrote(f, h, ch)
  {
    SameStops(f, g, h, {});
    SameStops(f, g, h, {ch.key});
    hide SameContent, OtherStops, OtherRoutes;
    assert ch.edit.StopCreate? ==> ch.key in g.stops by {
      CreatedIsThere(f, g, {ch.key});
    }
    if ch.key in g.stops {
      StopFields(h.stops[ch.key], g.stops[ch.key]);
    }
  }

  lemma CreatedIsThere(f: Feed, g: Feed, but: set<Id>)
    ensures OtherStops(f, g, but) ==> but <= g.stops.Keys && f.stops.Keys <= g.stops.Keys
  {
  }

  lemma StopMergeStays(f: Feed, g: Feed, h: Feed, ch: Change)
    requires SameContent(h, g) && Wrote(f, g, ch) && ch.edit.StopMerge?
    ensures Wrote(f, h, ch)
  {
    SameStops(f, g, h, {});
    SameStops(f, g, h, {ch.key, ch.edit.into});
    CreatedIsThere(f, g, {ch.key, ch.edit.into});
    hide SameContent, OtherStops, OtherRoutes, CallsRenamed;
    if ch.key in f.stops && ch.edit.into in f.stops {
      StopFields(h.stops[ch.edit.into], g.stops[ch.edit.into]);
    }
  }

  lemma RouteEditStays(f: Feed, g: Feed, h: Feed, ch: Change)
    requires SameContent(h, g) && Wrote(f, g, ch)
    requires ch.edit.RouteCreate? || ch.edit.RouteUpdate? || ch.edit.RouteDelete?
    ensures Wrote(f, h, ch)
  {
    SameStops(f, g, h, {});
    SameStops(f, g, h, {ch.key});
    if ch.key in g.routes {
      RouteFields(h.routes[ch.key], g.routes[ch.key]);
    }
    hide SameContent, OtherStops;
  }

  lemma WroteStays(f: Feed, g: Feed, h: Feed, ch: Change)
    requires SameContent(h, g) && Wrote(f, g, ch)
    ensures Wrote(f, h, ch)
  {
    hide SameContent, StationHouses, StationsMerged, StopCreated, StopUpdated, StopDeleted, StopsMerged;
    hide RouteCreated, RouteUpdated, RouteDeleted, NewStation, NamedStation;
    if ch.edit.StationCreate? {
      var own :| NewStation(ch, own) && StationHouses(f, g, ch.key, own, ch.edit.members);
      StationStays(f, g, h, ch.key, own, ch.edit.members);
    } else if ch.edit.StationUpdate? {
      if ch.key in f.stops {
        var own :| NamedStation(f.stops[ch.key], ch, own) && StationHouses(f, g, ch.key, own, ch.edit.members);
        StationStays(f, g, h, ch.key, own, ch.edit.members);
      }
    } else if ch.edit.StationMerge? {
      MergeStays(f, g, h, ch);
    } else if ch.edit.StationDelete? {
      SameStops(f, g, h, {});
    } else if ch.edit.StopMerge? {
      StopMergeStays(f, g, h, ch);
    } else if ch.edit.RowsReplace? {
      SameStops(f, g, h, {});
    } else if OnStop(ch.edit) {
      StopEditStays(f, g, h, ch);
    } else {
      RouteEditStays(f, g, h, ch);
    }
  }

  /** What a draft shows is what goes live: its commit leaves the live data differing
      from the projection of all but the last change by what that change writes. */
  lemma CommitWrites(live: Feed, front: seq<Change>, ch: Change)
    ensures Wrote(Projected(live, front), AfterCommit(live, front + [ch]), ch)
  {
    hide *;
    ProjectionWrites(live, front, ch);
    CommitPublishesProjection(live, front + [ch]);
    WroteStays(Projected(live, front), Projected(live, front + [ch]), AfterCommit(live, front + [ch]), ch);
  }

  /** A live record a draft changed goes up by one version, a new one begins at one, and
      one that a commit leaves at its version is as it was. */
  lemma CommitVersions(live: Feed, changes: seq<Change>)
    ensures forall sid | sid in AfterCommit(live, changes).stops ::
              var now := AfterCommit(live, changes).stops[sid];
              if sid in live.stops then
                (now == live.stops[sid] || now.version == live.stops[sid].version + 1)
                && (!SameStop(now, live.stops[sid]) ==> now.version == live.stops[sid].version + 1)
              else now.version == 1
    ensures forall rid | rid in AfterCommit(live, changes).routes ::
              var now := AfterCommit(live, changes).routes[rid];
              if rid in live.routes then
                (now == live.routes[rid] || now.version == live.routes[rid].version + 1)
                && (!SameRoute(now, live.routes[rid]) ==> now.version == live.routes[rid].version + 1)
              else now.version == 1
  {
    hide Replayed;
  }
}
