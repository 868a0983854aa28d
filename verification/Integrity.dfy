/** Referential integrity: every row a passenger could be served at names an
    existing, undeleted stop that is not a station. A draft that passes validation
    keeps it exactly when its merges leave no call stranded. */
module Integrity {
  import opened Records
  import opened Replay
  import opened Findings
  import opened RowRules
  import opened Validation
  import opened Passing

  ghost predicate Intact(f: Feed) {
    forall rid, i | rid in f.rows && 0 <= i < |f.rows[rid]| :: Sound(f.stops, f.rows[rid][i])
  }

  /** A row as `Sound`, but that its stop may be among those a draft deleted. */
  predicate SoundBut(stops: map<Id, Stop>, row: Row, doomed: set<Id>) {
    && !row.kind.Other?
    && (row.kind == RouteCorrection
        || (&& row.stop.Some?
            && row.stop.value in stops
            && stops[row.stop.value].locationType != 1
            && (stops[row.stop.value].deleted ==> row.stop.value in doomed)))
  }

  /** A list calls at the stop: a row that is more than a map marker names it. */
  predicate CalledIn(rows: seq<Row>, sid: Id) {
    exists i :: 0 <= i < |rows| && rows[i].kind != RouteCorrection && rows[i].stop == Some(sid)
  }

  predicate Called(rows: map<Id, seq<Row>>, sid: Id) {
    exists rid :: rid in rows && CalledIn(rows[rid], sid)
  }

  /** The guard a merge is added under, as it matters when the merge is replayed: a
      record that routes call at is merged, as a stop, into another record that is
      not a station. */
  predicate MovesSafely(before: Feed, ch: Change) {
    IsMerge(ch.edit) && Called(before.rows, ch.key) ==> !Unsafe(before.stops, ch)
  }

  /** A merge that leaves the calls at its record on a station or a deleted record. */
  predicate Unsafe(stops: map<Id, Stop>, ch: Change) {
    IsMerge(ch.edit)
    && (ch.edit.StationMerge? || ch.edit.into == ch.key || (ch.edit.into in stops && stops[ch.edit.into].locationType == 1))
  }

  // ---- what a draft strands

  /** A route that calls at a record no route should call at. */
  datatype Strand = Strand(route: Id, record: Id)

  /** What one change strands: the calls of an unsafe merge, where it leaves them. */
  function StrandedBy(before: Feed, ch: Change): set<Strand> {
    if !Unsafe(before.stops, ch) then {} else
      var to := if ch.edit.StationMerge? then ch.key else ch.edit.into;
      set rid | rid in before.rows && CalledIn(before.rows[rid], ch.key) :: Strand(rid, to)
  }

  /** A replaced stop list and a stop merged away take their strands with them. */
  predicate Frees(ch: Change, s: Strand) {
    (ch.edit.RowsReplace? && ch.key == s.route) || (ch.edit.StopMerge? && ch.key == s.record)
  }

  function StillStranded(before: Feed, ch: Change, strands: set<Strand>): set<Strand> {
    (set s | s in strands && !Frees(ch, s)) + StrandedBy(before, ch)
  }

  /** What a change list leaves stranded, replayed over the live data. */
  function Stranded(live: Feed, changes: seq<Change>): set<Strand> {
    if changes == [] then {} else
      var front := changes[..|changes| - 1];
      StillStranded(Projected(live, front), changes[|changes| - 1], Stranded(live, front))
  }

  /** The guard holds of every change where the draft replays it. */
  ghost predicate EveryMoveSafe(live: Feed, changes: seq<Change>) {
    forall k | 0 <= k < |changes| :: MovesSafely(Projected(live, changes[..k]), changes[k])
  }

  /** The row is sound but for the stops deleted so far, or its call is stranded. */
  predicate Held(stops: map<Id, Stop>, rid: Id, row: Row, doomed: set<Id>, strands: set<Strand>) {
    || SoundBut(stops, row, doomed)
    || (!row.kind.Other? && row.stop.Some? && row.stop.value in stops && Strand(rid, row.stop.value) in strands)
  }

  predicate RowsHeld(stops: map<Id, Stop>, rid: Id, rows: seq<Row>, doomed: set<Id>, strands: set<Strand>) {
    forall i | 0 <= i < |rows| :: Held(stops, rid, rows[i], doomed, strands)
  }

  /** The route calls at the record, which is a station or deleted. */
  predicate IsStranded(f: Feed, s: Strand) {
    && s.route in f.rows && CalledIn(f.rows[s.route], s.record)
    && s.record in f.stops && (f.stops[s.record].locationType == 1 || f.stops[s.record].deleted)
  }

  /** Every row is sound, up to the stops deleted so far, but for the strands. */
  ghost predicate IntactBut(f: Feed, doomed: set<Id>, strands: set<Strand>) {
    && (forall rid | rid in f.rows :: RowsHeld(f.stops, rid, f.rows[rid], doomed, strands))
    && (forall s | s in strands :: IsStranded(f, s))
  }

  lemma IntactIsIntactBut(f: Feed)
    requires Intact(f)
    ensures IntactBut(f, {}, {})
  {
    forall rid, i | rid in f.rows && 0 <= i < |f.rows[rid]|
      ensures Held(f.stops, rid, f.rows[rid][i], {}, {})
    {
      assert Sound(f.stops, f.rows[rid][i]);
    }
  }

  lemma StrandBreaks(f: Feed, s: Strand)
    requires IsStranded(f, s)
    ensures !Intact(f)
  {
    var rows := f.rows[s.route];
    var i :| 0 <= i < |rows| && rows[i].kind != RouteCorrection && rows[i].stop == Some(s.record);
    assert !Sound(f.stops, rows[i]);
  }

  // ---- writes of stop records

  /** A written stop record keeps the rows that name it held, and the strands on it. */
  predicate Harmless(rows: map<Id, seq<Row>>, sid: Id, was: Stop, now: Stop, doomed: set<Id>, strands: set<Strand>) {
    && now.locationType == was.locationType
    && (was.deleted ==> now.deleted)
    && (now.deleted ==> was.deleted || sid in doomed || was.locationType == 1
                        || forall rid | rid in rows && CalledIn(rows[rid], sid) :: Strand(rid, sid) in strands)
  }

  lemma HarmlessRow(f: Feed, writes: map<Id, Stop>, rid: Id, i: nat, doomed: set<Id>, more: set<Id>,
                    was: set<Strand>, now: set<Strand>)
    requires doomed <= more && was <= now && rid in f.rows && i < |f.rows[rid]|
    requires Held(f.stops, rid, f.rows[rid][i], doomed, was)
    requires forall sid | sid in writes && sid in f.stops :: Harmless(f.rows, sid, f.stops[sid], writes[sid], more, now)
    ensures Held(f.stops + writes, rid, f.rows[rid][i], more, now)
  {
    var row := f.rows[rid][i];
    if row.kind != RouteCorrection && row.stop.value in writes {
      assert Harmless(f.rows, row.stop.value, f.stops[row.stop.value], writes[row.stop.value], more, now);
      assert CalledIn(f.rows[rid], row.stop.value);
    }
  }

  lemma HarmlessWrites(f: Feed, writes: map<Id, Stop>, doomed: set<Id>, more: set<Id>, was: set<Strand>, now: set<Strand>)
    requires IntactBut(f, doomed, was) && doomed <= more && was <= now
    requires forall sid | sid in writes && sid in f.stops :: Harmless(f.rows, sid, f.stops[sid], writes[sid], more, now)
    requires forall s | s in now && s !in was :: IsStranded(f.(stops := f.stops + writes), s)
    ensures IntactBut(f.(stops := f.stops + writes), more, now)
  {
    var stops := f.stops + writes;
    forall rid | rid in f.rows
      ensures RowsHeld(stops, rid, f.rows[rid], more, now)
    {
      assert RowsHeld(f.stops, rid, f.rows[rid], doomed, was);
      hide Held, Harmless, IsStranded;
      forall i | 0 <= i < |f.rows[rid]|
        ensures Held(stops, rid, f.rows[rid][i], more, now)
      {
        HarmlessRow(f, writes, rid, i, doomed, more, was, now);
      }
    }
    forall s | s in was
      ensures IsStranded(f.(stops := stops), s)
    {
      assert IsStranded(f, s);
      hide CalledIn;
      assert s.record in writes ==> Harmless(f.rows, s.record, f.stops[s.record], writes[s.record], more, now);
    }
  }

  lemma StopEditHolds(ctx: Context, before: Feed, ch: Change, doomed: set<Id>, strands: set<Strand>)
    requires OnStop(ch.edit) && !ch.edit.StopMerge? && Clean(StopEditFindings(ctx, before, ch))
    requires IntactBut(before, doomed, strands)
    ensures IntactBut(before.(stops := before.stops + StopWrites(before.stops, ch)),
                      if ch.edit.StopDelete? then doomed + {ch.key} else doomed, strands)
  {
    StopEditPasses(ctx, before, ch);
    hide IntactBut, StopEditFindings, IsStranded;
    HarmlessWrites(before, StopWrites(before.stops, ch), doomed,
                   if ch.edit.StopDelete? then doomed + {ch.key} else doomed, strands, strands);
  }

  /** A station's change rewrites parents and labels; only a station is deleted. */
  lemma StationWritesKind(stops: map<Id, Stop>, ch: Change, sid: Id)
    requires OnStation(ch.edit) && !ch.edit.StationMerge?
    requires ch.edit.StationCreate? ==> ch.key !in stops
    requires ch.edit.StationDelete? ==> ch.key in stops && stops[ch.key].locationType == 1
    requires sid in stops && sid in StationEditWrites(stops, ch)
    ensures var now := StationEditWrites(stops, ch)[sid];
            now.locationType == stops[sid].locationType
            && (stops[sid].deleted ==> now.deleted)
            && (now.deleted ==> stops[sid].deleted || stops[sid].locationType == 1)
  {
  }

  lemma StationEditHolds(before: Feed, ch: Change, doomed: set<Id>, strands: set<Strand>)
    requires OnStation(ch.edit) && !ch.edit.StationMerge? && Clean(StationFindings(before, ch))
    requires IntactBut(before, doomed, strands)
    ensures IntactBut(before.(stops := before.stops + StationEditWrites(before.stops, ch)), doomed, strands)
  {
    StationEditPasses(Context(before, before, [], map[]), before, ch);
    hide IntactBut, StationFindings, IsStranded;
    var writes := StationEditWrites(before.stops, ch);
    forall sid | sid in writes && sid in before.stops
      ensures Harmless(before.rows, sid, before.stops[sid], writes[sid], doomed, strands)
    {
      StationWritesKind(before.stops, ch, sid);
    }
    HarmlessWrites(before, writes, doomed, doomed, strands, strands);
  }

  // ---- merges

  /** A station merge deletes the one record and touches the parents of others. */
  lemma StationMergeKind(stops: map<Id, Stop>, ch: Change, sid: Id)
    requires ch.edit.StationMerge? && ch.key in stops && ch.edit.into in stops && sid in stops
    requires sid in StationEditWrites(stops, ch)
    ensures var now := StationEditWrites(stops, ch)[sid];
            now.locationType == stops[sid].locationType
            && now.deleted == (sid == ch.key || stops[sid].deleted)
  {
  }

  lemma StationMergeHolds(before: Feed, ch: Change, doomed: set<Id>, strands: set<Strand>)
    requires ch.edit.StationMerge? && Clean(MergeFindings(before, ch))
    requires IntactBut(before, doomed, strands)
    ensures IntactBut(before.(stops := before.stops + StationEditWrites(before.stops, ch)), doomed,
                      StillStranded(before, ch, strands))
  {
    CleanStationMerge(before, ch);
    var writes, now := StationEditWrites(before.stops, ch), StillStranded(before, ch, strands);
    assert strands <= now;
    hide IntactBut, MergeFindings, StationEditWrites;
    forall sid | sid in writes && sid in before.stops
      ensures Harmless(before.rows, sid, before.stops[sid], writes[sid], doomed, now)
    {
      StationMergeKind(before.stops, ch, sid);
    }
    forall s | s in now && s !in strands
      ensures IsStranded(before.(stops := before.stops + writes), s)
    {
      StationMergeWritesKey(before.stops, ch);
    }
    HarmlessWrites(before, writes, doomed, doomed, strands, now);
  }

  lemma StationMergeWritesKey(stops: map<Id, Stop>, ch: Change)
    requires ch.edit.StationMerge? && ch.key in stops && ch.edit.into in stops
    ensures ch.key in StationEditWrites(stops, ch) && StationEditWrites(stops, ch)[ch.key].deleted
  {
  }

  /** What a stop merge does to stops, as far as their rows can tell. */
  predicate Redirects(before: map<Id, Stop>, after: map<Id, Stop>, key: Id) {
    && after.Keys == before.Keys && key in after && after[key].deleted
    && forall sid | sid in before ::
         && after[sid].locationType == before[sid].locationType
         && (sid != key ==> after[sid].deleted == before[sid].deleted)
  }

  lemma StopMergeRedirects(before: Feed, ch: Change)
    requires ch.edit.StopMerge? && ch.key in before.stops && ch.edit.into in before.stops
    ensures Redirects(before.stops, Applied(before, ch).stops, ch.key)
  {
    hide RowWrites, StationEditWrites, RouteWrites, Redirects;
    assert Applied(before, ch).stops == before.stops + StopWrites(before.stops, ch) by {
      hide StopWrites;
    }
    hide Applied;
    MergeWritesRedirect(before.stops, ch);
  }

  lemma MergeWritesRedirect(stops: map<Id, Stop>, ch: Change)
    requires ch.edit.StopMerge? && ch.key in stops && ch.edit.into in stops
    ensures Redirects(stops, stops + StopWrites(stops, ch), ch.key)
  {
    assert (stops + StopWrites(stops, ch)).Keys == stops.Keys;
  }

  lemma MergedRowHeld(before: Feed, ch: Change, after: map<Id, Stop>, rid: Id, i: nat, doomed: set<Id>, strands: set<Strand>)
    requires ch.edit.StopMerge? && rid in before.rows && i < |before.rows[rid]|
    requires Held(before.stops, rid, before.rows[rid][i], doomed, strands)
    requires ch.edit.into in before.stops && !before.stops[ch.edit.into].deleted
    requires Redirects(before.stops, after, ch.key)
    ensures Held(after, rid, Renamed(before.rows[rid], ch.key, ch.edit.into)[i], doomed, StillStranded(before, ch, strands))
  {
    var row := before.rows[rid][i];
    if row.kind != RouteCorrection && row.stop == Some(ch.key) {
      assert CalledIn(before.rows[rid], ch.key);
      assert Unsafe(before.stops, ch) ==> Strand(rid, ch.edit.into) in StrandedBy(before, ch);
    }
  }

  lemma MergedStrand(before: Feed, ch: Change, after: Feed, strands: set<Strand>, s: Strand)
    requires ch.edit.StopMerge? && ch.edit.into in before.stops
    requires Redirects(before.stops, after.stops, ch.key)
    requires after.rows == map rid | rid in before.rows :: Renamed(before.rows[rid], ch.key, ch.edit.into)
    requires forall s | s in strands :: IsStranded(before, s)
    requires s in StillStranded(before, ch, strands)
    ensures IsStranded(after, s)
  {
    var rows := before.rows[s.route];
    var from := if s in StrandedBy(before, ch) then ch.key else s.record;
    var i :| 0 <= i < |rows| && rows[i].kind != RouteCorrection && rows[i].stop == Some(from);
    assert after.rows[s.route][i].kind != RouteCorrection && after.rows[s.route][i].stop == Some(s.record);
  }

  lemma StopMergeHolds(before: Feed, ch: Change, doomed: set<Id>, strands: set<Strand>)
    requires ch.edit.StopMerge? && Clean(MergeFindings(before, ch))
    requires IntactBut(before, doomed, strands)
    ensures IntactBut(Applied(before, ch), doomed, StillStranded(before, ch, strands))
  {
    CleanStopMerge(before, ch);
    hide Applied, Clean, MergeFindings, Held, Renamed, Redirects, StillStranded, IsStranded;
    MergeRenamesEverywhere(before, ch);
    StopMergeRedirects(before, ch);
    var after, now := Applied(before, ch), StillStranded(before, ch, strands);
    forall rid | rid in after.rows
      ensures RowsHeld(after.stops, rid, after.rows[rid], doomed, now)
    {
      RenamedLength(before.rows[rid], ch.key, ch.edit.into);
      assert RowsHeld(before.stops, rid, before.rows[rid], doomed, strands);
      forall i | 0 <= i < |after.rows[rid]|
        ensures Held(after.stops, rid, after.rows[rid][i], doomed, now)
      {
        MergedRowHeld(before, ch, after.stops, rid, i, doomed, strands);
      }
    }
    forall s | s in now
      ensures IsStranded(after, s)
    {
      MergedStrand(before, ch, after, strands, s);
    }
  }

  lemma RenamedLength(rows: seq<Row>, sid: Id, into: Id)
    ensures |Renamed(rows, sid, into)| == |rows|
  {
  }

  // ---- stop lists

  function Elsewhere(strands: set<Strand>, rid: Id): set<Strand> {
    set s | s in strands && s.route != rid
  }

  lemma ReplacedList(before: Feed, rid: Id, list: seq<Row>, doomed: set<Id>, strands: set<Strand>)
    requires IntactBut(before, doomed, strands) && RowsHeld(before.stops, rid, list, doomed, {})
    ensures IntactBut(before.(rows := before.rows[rid := list]), doomed, Elsewhere(strands, rid))
  {
    hide RowsHeld, CalledIn;
    var rows, now := before.rows[rid := list], Elsewhere(strands, rid);
    forall r | r in rows
      ensures RowsHeld(before.stops, r, rows[r], doomed, now)
    {
      OldRowsHeld(before.stops, r, rows[r], doomed, if r == rid then {} else strands, now);
    }
    forall s | s in now
      ensures IsStranded(before.(rows := rows), s)
    {
      assert IsStranded(before, s);
    }
  }

  lemma ReplaceIs(before: Feed, ch: Change, strands: set<Strand>)
    requires ch.edit.RowsReplace?
    ensures before.rows + RowWrites(before, ch) == before.rows[ch.key := Renumbered(ch.edit.rows)]
    ensures StillStranded(before, ch, strands) == Elsewhere(strands, ch.key)
  {
  }

  lemma ReplaceHolds(ctx: Context, before: Feed, ch: Change, doomed: set<Id>, strands: set<Strand>)
    requires ch.edit.RowsReplace? && Clean(RouteFindings(ctx, before, ch)) && Intact(ctx.live)
    requires IntactBut(before, doomed, strands)
    ensures IntactBut(before.(rows := before.rows + RowWrites(before, ch)), doomed, StillStranded(before, ch, strands))
  {
    assert AllSound(ctx.live.stops, RowsOf(ctx.live.rows, ch.key));
    hide *;
    CleanReplace(ctx, before, ch);
    NewRowsHeld(before.stops, ch.key, ch.edit.rows, doomed, {});
    ReplacedList(before, ch.key, Renumbered(ch.edit.rows), doomed, strands);
    ReplaceIs(before, ch, strands);
  }

  lemma OldRowsHeld(stops: map<Id, Stop>, rid: Id, rows: seq<Row>, doomed: set<Id>, was: set<Strand>, now: set<Strand>)
    requires RowsHeld(stops, rid, rows, doomed, was)
    requires forall s | s in was && s.route == rid :: s in now
    ensures RowsHeld(stops, rid, rows, doomed, now)
  {
    forall i | 0 <= i < |rows|
      ensures Held(stops, rid, rows[i], doomed, now)
    {
      assert Held(stops, rid, rows[i], doomed, was);
    }
  }

  lemma NewRowsHeld(stops: map<Id, Stop>, rid: Id, rows: seq<Row>, doomed: set<Id>, strands: set<Strand>)
    requires AllSound(stops, rows)
    ensures RowsHeld(stops, rid, Renumbered(rows), doomed, strands)
  {
    assert forall i | 0 <= i < |rows| :: Sound(stops, rows[i]);
  }

  // ---- a change, a draft

  /** The stops a change list deletes outright. */
  function Doomed(changes: seq<Change>): set<Id> {
    set i | 0 <= i < |changes| && changes[i].edit.StopDelete? :: changes[i].key
  }

  lemma NothingFreed(before: Feed, ch: Change, strands: set<Strand>)
    requires !IsMerge(ch.edit) && !ch.edit.RowsReplace?
    ensures StillStranded(before, ch, strands) == strands
  {
  }

  /** One validated change keeps every row sound but for the stops deleted so far and
      for what is stranded, which is just what the merges strand. */
  lemma ChangeStrands(ctx: Context, before: Feed, ch: Change, doomed: set<Id>, strands: set<Strand>)
    requires Clean(ChangeFindings(ctx, before, ch)) && Intact(ctx.live)
    requires IntactBut(before, doomed, strands)
    ensures IntactBut(Applied(before, ch), if ch.edit.StopDelete? then doomed + {ch.key} else doomed,
                      StillStranded(before, ch, strands))
  {
    hide Clean, Intact, IntactBut, StillStranded;
    var e := ch.edit;
    assert before.rows + map[] == before.rows && before.stops + map[] == before.stops && before.routes + map[] == before.routes;
    if e.StopMerge? {
      StopMergeHolds(before, ch, doomed, strands);
    } else if e.StationMerge? {
      StationMergeHolds(before, ch, doomed, strands);
    } else if e.RowsReplace? {
      ReplaceHolds(ctx, before, ch, doomed, strands);
    } else {
      NothingFreed(before, ch, strands);
      if OnStop(e) {
        StopEditHolds(ctx, before, ch, doomed, strands);
      } else if OnStation(e) {
        StationEditHolds(before, ch, doomed, strands);
      } else {
        RouteEditHolds(before, ch, doomed, strands);
      }
    }
  }

  lemma RouteEditHolds(before: Feed, ch: Change, doomed: set<Id>, strands: set<Strand>)
    requires ch.edit.RouteCreate? || ch.edit.RouteUpdate? || ch.edit.RouteDelete?
    requires IntactBut(before, doomed, strands)
    ensures IntactBut(Applied(before, ch), doomed, strands)
  {
    assert before.rows + map[] == before.rows && before.stops + map[] == before.stops;
    assert Applied(before, ch).rows == before.rows && Applied(before, ch).stops == before.stops;
    hide Applied, RowsHeld, CalledIn;
    forall s | s in strands
      ensures IsStranded(Applied(before, ch), s)
    {
      assert IsStranded(before, s);
    }
  }

  /** Where the guard holds nothing is stranded, so integrity is kept outright. */
  lemma ChangeKeepsIntegrity(ctx: Context, before: Feed, ch: Change, doomed: set<Id>)
    requires Clean(ChangeFindings(ctx, before, ch)) && Intact(ctx.live) && MovesSafely(before, ch)
    requires IntactBut(before, doomed, {})
    ensures IntactBut(Applied(before, ch), if ch.edit.StopDelete? then doomed + {ch.key} else doomed, {})
  {
    SafeStrandsNothing(before, ch);
    hide *;
    ChangeStrands(ctx, before, ch, doomed, {});
  }

  /** A change strands something exactly when it moves calls unsafely. */
  lemma SafeStrandsNothing(before: Feed, ch: Change)
    ensures StillStranded(before, ch, {}) == {} <==> MovesSafely(before, ch)
  {
    if !MovesSafely(before, ch) {
      var rid :| rid in before.rows && CalledIn(before.rows[rid], ch.key);
      assert Strand(rid, if ch.edit.StationMerge? then ch.key else ch.edit.into) in StrandedBy(before, ch);
    } else if Unsafe(before.stops, ch) {
      assert forall rid | rid in before.rows :: !CalledIn(before.rows[rid], ch.key);
    }
  }

  /** Integrity after a change list, up to the stops it deletes and the calls it strands. */
  ghost predicate IntactAfter(live: Feed, changes: seq<Change>) {
    IntactBut(Projected(live, changes), Doomed(changes), Stranded(live, changes))
  }

  lemma IntactBefore(live: Feed)
    requires Intact(live)
    ensures IntactAfter(live, [])
  {
    ProjectedNothing(live);
    IntactIsIntactBut(live);
  }

  lemma StrandedAppend(live: Feed, changes: seq<Change>, ch: Change)
    ensures Stranded(live, changes + [ch]) == StillStranded(Projected(live, changes), ch, Stranded(live, changes))
  {
    assert (changes + [ch])[..|changes|] == changes;
  }

  lemma ReplayStrands(live: Feed, changes: seq<Change>, reviewStops: map<nat, Id>, front: seq<Change>, ch: Change)
    requires Intact(live) && IntactAfter(live, front)
    requires Clean(ChangeFindings(ContextOf(live, changes, reviewStops), Projected(live, front), ch))
    ensures IntactAfter(live, front + [ch])
  {
    hide Clean, ChangeFindings, Projected, IntactBut, Doomed, Stranded, StillStranded, Applied, Intact;
    DoomedAppend(front, ch);
    StrandedAppend(live, front, ch);
    ChangeStrands(ContextOf(live, changes, reviewStops), Projected(live, front), ch, Doomed(front), Stranded(live, front));
    ProjectedAppend(live, front, ch);
  }

  lemma {:induction false} PrefixStrands(live: Feed, changes: seq<Change>, reviewStops: map<nat, Id>, k: nat)
    requires k <= |changes| && Valid(live, changes, reviewStops) && Intact(live)
    ensures IntactAfter(live, changes[..k])
  {
    hide *;
    if k == 0 {
      IntactBefore(live);
      assert changes[..0] == [];
    } else {
      PrefixStrands(live, changes, reviewStops, k - 1);
      var front, ch := changes[..k - 1], changes[k - 1];
      ValidEveryChange(live, changes, reviewStops, k - 1);
      ReplayStrands(live, changes, reviewStops, front, ch);
      assert changes[..k] == front + [ch];
    }
  }

  lemma DoomedAppend(changes: seq<Change>, ch: Change)
    ensures Doomed(changes + [ch]) == if ch.edit.StopDelete? then Doomed(changes) + {ch.key} else Doomed(changes)
  {
    var all := changes + [ch];
    forall sid | sid in Doomed(changes)
      ensures sid in Doomed(all)
    {
      var i :| 0 <= i < |changes| && changes[i].edit.StopDelete? && changes[i].key == sid;
      assert all[i] == changes[i];
    }
    if ch.edit.StopDelete? {
      assert all[|changes|] == ch;
    }
  }

  /** No row of the projection names a stop the draft deletes. */
  lemma DeletedStopsUnused(live: Feed, changes: seq<Change>, reviewStops: map<nat, Id>, sid: Id)
    requires Valid(live, changes, reviewStops) && sid in Doomed(changes)
    ensures RoutesUsing(Projected(live, changes).rows, sid) == {}
  {
    var k :| 0 <= k < |changes| && changes[k].edit.StopDelete? && changes[k].key == sid;
    ValidEveryChange(live, changes, reviewStops, k);
    StopEditPasses(ContextOf(live, changes, reviewStops), Projected(live, changes[..k]), changes[k]);
    UsedIsNamed(Projected(live, changes), sid);
  }

  /** Publishing changes versions alone. */
  lemma PublishedIntact(live: Feed, overlay: Feed)
    ensures Intact(Published(live, overlay)) <==> Intact(Over(live, overlay))
  {
    var a, b := Published(live, overlay), Over(live, overlay);
    forall rid, i | rid in a.rows && 0 <= i < |a.rows[rid]|
      ensures Sound(a.stops, a.rows[rid][i]) <==> Sound(b.stops, b.rows[rid][i])
    {
    }
    if Intact(a) {
      forall rid, i | rid in b.rows && 0 <= i < |b.rows[rid]|
        ensures Sound(b.stops, b.rows[rid][i])
      {
        assert Sound(a.stops, a.rows[rid][i]);
      }
    } else {
      var rid, i :| rid in a.rows && 0 <= i < |a.rows[rid]| && !Sound(a.stops, a.rows[rid][i]);
      assert !Sound(b.stops, b.rows[rid][i]);
    }
  }

  /** A draft that passes validation keeps every row on an existing, undeleted stop that
      is not a station if and only if it leaves nothing stranded. */
  lemma IntegrityIsExact(live: Feed, changes: seq<Change>, reviewStops: map<nat, Id>)
    requires Valid(live, changes, reviewStops) && Intact(live)
    ensures Intact(Projected(live, changes)) <==> Stranded(live, changes) == {}
    ensures Intact(AfterCommit(live, changes)) <==> Stranded(live, changes) == {}
  {
    hide Valid, Intact, IntactBut, Stranded, Projected, Published, Over, Replayed;
    PrefixStrands(live, changes, reviewStops, |changes|);
    assert changes[..|changes|] == changes;
    if Stranded(live, changes) == {} {
      IntactWithoutDeleted(live, changes, reviewStops);
    } else {
      var s :| s in Stranded(live, changes);
      StrandsAreThere(live, changes, s);
      StrandBreaks(Projected(live, changes), s);
    }
    CommitIsPublished(live, changes);
  }

  lemma StrandsAreThere(live: Feed, changes: seq<Change>, s: Strand)
    requires IntactAfter(live, changes) && s in Stranded(live, changes)
    ensures IsStranded(Projected(live, changes), s)
  {
  }

  lemma CommitIsPublished(live: Feed, changes: seq<Change>)
    ensures Intact(AfterCommit(live, changes)) <==> Intact(Projected(live, changes))
  {
    hide Intact, Published, Over, Replayed;
    PublishedIntact(live, Replayed(live, changes));
  }

  lemma HeldIsSound(f: Feed, rid: Id, i: nat, doomed: set<Id>)
    requires rid in f.rows && i < |f.rows[rid]| && Held(f.stops, rid, f.rows[rid][i], doomed, {})
    requires forall sid | sid in doomed :: RoutesUsing(f.rows, sid) == {}
    ensures Sound(f.stops, f.rows[rid][i])
  {
    if f.rows[rid][i].stop.Some? {
      RowIsUsing(f.rows, rid, i);
    }
  }

  lemma RowIsUsing(rows: map<Id, seq<Row>>, rid: Id, i: nat)
    requires rid in rows && i < |rows[rid]| && rows[rid][i].stop.Some?
    ensures rid in RoutesUsing(rows, rows[rid][i].stop.value)
  {
    assert Names(rows[rid], rows[rid][i].stop.value);
  }

  lemma IntactWithoutDeleted(live: Feed, changes: seq<Change>, reviewStops: map<nat, Id>)
    requires Valid(live, changes, reviewStops) && IntactAfter(live, changes) && Stranded(live, changes) == {}
    ensures Intact(Projected(live, changes))
  {
    hide Valid, Projected, Doomed, Stranded, Held, RoutesUsing, Sound;
    var f := Projected(live, changes);
    forall sid | sid in Doomed(changes)
      ensures RoutesUsing(f.rows, sid) == {}
    {
      DeletedStopsUnused(live, changes, reviewStops, sid);
    }
    forall rid, i | rid in f.rows && 0 <= i < |f.rows[rid]|
      ensures Sound(f.stops, f.rows[rid][i])
    {
      assert RowsHeld(f.stops, rid, f.rows[rid], Doomed(changes), {});
      HeldIsSound(f, rid, i, Doomed(changes));
    }
  }

  /** A draft whose merges all replay under their guard strands nothing. */
  lemma {:induction false} SafeDraftStrandsNothing(live: Feed, changes: seq<Change>)
    requires EveryMoveSafe(live, changes)
    ensures Stranded(live, changes) == {}
  {
    if changes != [] {
      hide MovesSafely, EveryMoveSafe, Projected, StillStranded;
      var m := |changes| - 1;
      SafeFront(live, changes);
      SafeDraftStrandsNothing(live, changes[..m]);
      SafeStrandsNothing(Projected(live, changes[..m]), changes[m]);
    }
  }

  lemma SafeFront(live: Feed, changes: seq<Change>)
    requires EveryMoveSafe(live, changes) && changes != []
    ensures EveryMoveSafe(live, changes[..|changes| - 1])
    ensures MovesSafely(Projected(live, changes[..|changes| - 1]), changes[|changes| - 1])
  {
    hide MovesSafely, Projected;
    var front := changes[..|changes| - 1];
    forall k | 0 <= k < |front|
      ensures MovesSafely(Projected(live, front[..k]), front[k])
    {
      assert front[..k] == changes[..k];
    }
  }

  /** So the guard, holding of every change, is enough for a draft of any length. */
  lemma ValidDraftKeepsIntegrity(live: Feed, changes: seq<Change>, reviewStops: map<nat, Id>)
    requires Valid(live, changes, reviewStops) && Intact(live) && EveryMoveSafe(live, changes)
    ensures Intact(Projected(live, changes))
    ensures Intact(AfterCommit(live, changes))
  {
    hide *;
    SafeDraftStrandsNothing(live, changes);
    IntegrityIsExact(live, changes, reviewStops);
  }

  /** For a draft of one change the guard is exact: of the changes that pass
      validation, those whose commit breaks integrity are the merges that fail it. */
  lemma GuardIsExact(live: Feed, ch: Change, reviewStops: map<nat, Id>)
    requires Valid(live, [ch], reviewStops) && Intact(live)
    ensures Intact(AfterCommit(live, [ch])) <==> MovesSafely(live, ch)
  {
    assert [ch] == [] + [ch] && Stranded(live, []) == {};
    hide *;
    ProjectedNothing(live);
    StrandedAppend(live, [], ch);
    SafeStrandsNothing(live, ch);
    IntegrityIsExact(live, [ch], reviewStops);
  }

  // ---- a draft that passes validation and strands a row

  /** One route whose only row calls at stop "A", another stop "B", and a station "S". */
  function OneCall(): Feed {
    Feed(map["A" := Stop("a", Position(0, 0), 0, None, None, false, None, 1),
             "B" := Stop("b", Position(0, 0), 0, None, None, false, None, 1),
             "S" := Stop("s", Position(0, 0), 1, None, None, false, None, 1)],
         map["1" := Route("1", true, false, 1)],
         map["1" := [Row(1, Some("A"), NewStop, Some(1), "a", None, None)]])
  }

  lemma CleanMergeIsValid(live: Feed, ch: Change, reviewStops: map<nat, Id>)
    requires IsMerge(ch.edit) && Clean(MergeFindings(live, ch))
    ensures Valid(live, [ch], reviewStops)
  {
    var ctx := ContextOf(live, [ch], reviewStops);
    assert [ch][..0] == [];
    ProjectedNothing(live);
    hide MergeFindings, Projected;
    assert FindingsUpTo(ctx, 0) == [];
    assert FindingsUpTo(ctx, 1) == [] + MergeFindings(live, ch) == MergeFindings(live, ch);
  }

  lemma OneCallFits(ch: Change)
    requires ch.key == "A" && ch.edit.StopMerge? && ch.edit.into == "S"
    ensures Intact(OneCall()) && !MovesSafely(OneCall(), ch)
    ensures forall rid | rid in OneCall().rows :: !WouldRepeat(OneCall().rows[rid], "A", "S")
  {
    var rows := OneCall().rows["1"];
    assert rows[0].kind != RouteCorrection && rows[0].stop == Some("A");
    assert CalledIn(rows, "A");
    assert Called(OneCall().rows, "A");
    OneServed(rows);
  }

  lemma OneServed(rows: seq<Row>)
    requires |rows| == 1
    ensures |ServedStops(rows)| <= 1
  {
    assert rows[..0] == [] && rows[1..] == [];
  }

  /** Nothing in validation looks at what kind of record a merge moves calls to. */
  lemma MergeIntoStationStrands(ch: Change)
    requires ch.key == "A" && ch.edit.StopMerge? && ch.edit.into == "S"
    ensures Valid(OneCall(), [ch], map[]) && Intact(OneCall())
    ensures !Intact(AfterCommit(OneCall(), [ch]))
  {
    hide Valid, Intact, MovesSafely, AfterCommit, MergeFindings, WouldRepeat;
    CleanStopMerge(OneCall(), ch);
    OneCallFits(ch);
    CleanMergeIsValid(OneCall(), ch, map[]);
    GuardIsExact(OneCall(), ch, map[]);
  }
}
