/** What settling a case leaves of the stop or the station, in the draft's projection and
    in the live data once the draft is committed. */
module Outcomes {
  import opened Records
  import opened Replay
  import opened Texts
  import opened Drafts
  import opened Cases
  import opened Updates

  /** The stop is at the point given; everything else of it, and every other record, is as
      it was, versions apart. */
  ghost predicate OnlyMoved(f: Feed, g: Feed, sid: Id, position: Position) {
    && sid in f.stops && OnlyStops(f, g, {sid})
    && SameStop(g.stops[sid], f.stops[sid].(position := position))
  }

  lemma UpdateMoves(f: Feed, g: Feed, ch: Change, position: Position)
    requires ch.edit == StopUpdate(None, Some(position), None) && ch.key in f.stops && Wrote(f, g, ch)
    ensures OnlyMoved(f, g, ch.key, position)
  {
    hide OnlyStops;
  }

  lemma LiveIsShown(live: Feed, changes: seq<Change>, sid: Id)
    requires sid in live.stops
    ensures sid in Projected(live, changes).stops
  {
    hide Replayed;
  }

  /** A review's draft, and the change its outcome is carried by: the draft's last. */
  predicate CarriedByLast(was: System, now: System, rid: nat, id: SetId) {
    && id in was.sets && id in now.sets && rid in now.reviews
    && |now.sets[id].changes| == |was.sets[id].changes| + 1
    && now.sets[id].changes[..|was.sets[id].changes|] == was.sets[id].changes
    && now.reviews[rid].link
       == Link(CaseApproved, Some(id), Some(now.sets[id].changes[|was.sets[id].changes|].id))
    && now.sets[id].changes[|was.sets[id].changes|].review == Some(rid)
  }

  lemma MoveAppends(sys: System, u: User, rid: nat, id: SetId, position: Position) returns (ch: Change)
    requires MoveReview(sys, u, rid, id, position).Done?
    ensures var now := MoveReview(sys, u, rid, id, position).sys;
            && rid in sys.reviews && CarriedByLast(sys, now, rid, id)
            && now.sets[id].changes == sys.sets[id].changes + [ch]
    ensures ch.key == sys.reviews[rid].stop && ch.edit == StopUpdate(None, Some(position), None)
    ensures ch.key in sys.feed.stops && ch.base == Some(sys.feed.stops[ch.key].version)
  {
    hide Projected, MovesReview;
    ch := MoveReview(sys, u, rid, id, position).sys.sets[id].changes[|sys.sets[id].changes|];
  }

  /** After an accepted move the draft shows, and its commit publishes, the reviewed stop
      at the point given and everything else as the draft had it. */
  lemma MoveMoves(sys: System, u: User, rid: nat, id: SetId, position: Position)
    requires MoveReview(sys, u, rid, id, position).Done?
    ensures var now := MoveReview(sys, u, rid, id, position).sys;
            && rid in sys.reviews && CarriedByLast(sys, now, rid, id)
            && var was, sid := Projected(sys.feed, sys.sets[id].changes), sys.reviews[rid].stop;
            && OnlyMoved(was, Projected(sys.feed, now.sets[id].changes), sid, position)
            && OnlyMoved(was, AfterCommit(sys.feed, now.sets[id].changes), sid, position)
  {
    var ch := MoveAppends(sys, u, rid, id, position);
    hide *;
    var front := sys.sets[id].changes;
    LiveIsShown(sys.feed, front, ch.key);
    ProjectionWrites(sys.feed, front, ch);
    CommitWrites(sys.feed, front, ch);
    UpdateMoves(Projected(sys.feed, front), Projected(sys.feed, front + [ch]), ch, position);
    UpdateMoves(Projected(sys.feed, front), AfterCommit(sys.feed, front + [ch]), ch, position);
  }

  /** The stop is merged into another: it is deleted and points there, the other has the
      name chosen and its own point, the calls are renamed, all else is as it was. */
  ghost predicate OnlyMergedInto(f: Feed, g: Feed, sid: Id, into: Id, keepName: bool) {
    && sid in f.stops && into in f.stops && into != sid
    && OtherStops(f, g, {sid, into}) && OtherRoutes(f, g, {}) && CallsRenamed(f.rows, g.rows, sid, into)
    && SameStop(g.stops[sid], f.stops[sid].(deleted := true, mergedInto := Some(into)))
    && SameStop(g.stops[into], f.stops[into].(name := if keepName then f.stops[sid].name else f.stops[into].name))
  }

  lemma MergeMerges(f: Feed, g: Feed, ch: Change, keepName: bool)
    requires ch.edit.StopMerge? && ch.edit.keep == Keep(keepName, false) && ch.edit.into != ch.key
    requires ch.key in f.stops && ch.edit.into in f.stops && Wrote(f, g, ch)
    ensures OnlyMergedInto(f, g, ch.key, ch.edit.into, keepName)
  {
    hide OtherStops, OtherRoutes, CallsRenamed;
  }

  lemma MergeAppends(sys: System, u: User, rid: nat, id: SetId, into: Id, keepName: bool) returns (ch: Change)
    requires MergeReview(sys, u, rid, id, into, keepName).Done?
    ensures var now := MergeReview(sys, u, rid, id, into, keepName).sys;
            && rid in sys.reviews && CarriedByLast(sys, now, rid, id)
            && now.sets[id].changes == sys.sets[id].changes + [ch]
    ensures ch.key == sys.reviews[rid].stop && ch.edit.StopMerge? && ch.edit.into == into != ch.key
    ensures ch.edit.keep == Keep(keepName, false)
    ensures ch.key in sys.feed.stops && into in sys.feed.stops
    ensures ch.base == Some(sys.feed.stops[ch.key].version) && ch.edit.intoVersion == Some(sys.feed.stops[into].version)
  {
    hide Projected, MergeClash;
    ch := MergeReview(sys, u, rid, id, into, keepName).sys.sets[id].changes[|sys.sets[id].changes|];
  }

  lemma ReviewMerges(sys: System, u: User, rid: nat, id: SetId, into: Id, keepName: bool)
    requires MergeReview(sys, u, rid, id, into, keepName).Done?
    ensures var now := MergeReview(sys, u, rid, id, into, keepName).sys;
            && rid in sys.reviews && CarriedByLast(sys, now, rid, id)
            && var was, sid := Projected(sys.feed, sys.sets[id].changes), sys.reviews[rid].stop;
            && OnlyMergedInto(was, Projected(sys.feed, now.sets[id].changes), sid, into, keepName)
            && OnlyMergedInto(was, AfterCommit(sys.feed, now.sets[id].changes), sid, into, keepName)
  {
    var ch := MergeAppends(sys, u, rid, id, into, keepName);
    hide *;
    var front := sys.sets[id].changes;
    LiveIsShown(sys.feed, front, ch.key);
    LiveIsShown(sys.feed, front, into);
    ProjectionWrites(sys.feed, front, ch);
    CommitWrites(sys.feed, front, ch);
    MergeMerges(Projected(sys.feed, front), Projected(sys.feed, front + [ch]), ch, keepName);
    MergeMerges(Projected(sys.feed, front), AfterCommit(sys.feed, front + [ch]), ch, keepName);
  }

  // ---- proposals

  /** Member `i` is the last in the list for its stop. */
  predicate LastFor(members: seq<Member>, i: nat) {
    i < |members| && forall k | i < k < |members| :: members[k].stop != members[i].stop
  }

  predicate Listed(members: seq<Member>, sid: Id) {
    exists i :: 0 <= i < |members| && members[i].stop == sid
  }

  /** The station is there with its name and point; each member has it as parent and the
      label listed last for it; every other record is as it was. */
  ghost predicate Opened(f: Feed, g: Feed, station: Id, name: string, position: Position, members: seq<Member>) {
    && station !in f.stops && g.stops.Keys == f.stops.Keys + {station} && OtherRoutes(f, g, {}) && g.rows == f.rows
    && SameStop(g.stops[station], Stop(name, position, 1, None, None, false, None, 1))
    && (forall i: nat | LastFor(members, i) :: members[i].stop in f.stops
          && SameStop(g.stops[members[i].stop],
                      f.stops[members[i].stop].(parent := Some(station), platform := Stored(members[i].platform))))
    && (forall sid | sid in f.stops && !Listed(members, sid) ::
          SameStop(g.stops[sid], f.stops[sid].(parent := if f.stops[sid].parent == Some(station) then None else f.stops[sid].parent)))
  }

  lemma {:induction false} LabelsAre(members: seq<Member>, sid: Id)
    ensures sid in CodesOf(members) <==> Listed(members, sid)
    ensures forall i: nat | LastFor(members, i) && members[i].stop == sid ::
              sid in CodesOf(members) && CodesOf(members)[sid] == members[i].platform
  {
    if members != [] {
      var front, last := members[..|members| - 1], members[|members| - 1];
      LabelsAre(front, sid);
      assert Listed(members, sid) <==> Listed(front, sid) || last.stop == sid by {
        assert members[|members| - 1] == last;
        assert forall i | 0 <= i < |front| :: members[i] == front[i];
      }
      forall i: nat | LastFor(members, i) && members[i].stop == sid
        ensures CodesOf(members)[sid] == members[i].platform
      {
        if i < |front| {
          assert members[|members| - 1].stop != members[i].stop;
          assert LastFor(front, i);
        }
      }
    }
  }

  lemma WantedAre(members: seq<Member>, sid: Id)
    ensures sid in MembersOf(members).want <==> Listed(members, sid)
    ensures forall i | 0 <= i < |members| :: members[i].stop in MembersOf(members).want
  {
    var want := MembersOf(members).want;
    assert forall i | 0 <= i < |members| :: want[i] == members[i].stop;
  }

  lemma StationOpens(f: Feed, g: Feed, ch: Change, name: string, position: Position, members: seq<Member>)
    requires ch.edit == StationCreate(name, position, Some(MembersOf(members)))
    requires ch.key !in f.stops && forall m | m in members :: m.stop in f.stops
    requires Wrote(f, g, ch)
    ensures Opened(f, g, ch.key, name, position, members)
  {
    var own :| NewStation(ch, own) && StationHouses(f, g, ch.key, own, ch.edit.members);
    hide CodesOf, MembersOf, OtherRoutes;
    WantedAre(members, ch.key);
    forall i: nat | LastFor(members, i)
      ensures members[i].stop in f.stops
      ensures SameStop(g.stops[members[i].stop],
                       f.stops[members[i].stop].(parent := Some(ch.key), platform := Stored(members[i].platform)))
    {
      var sid := members[i].stop;
      assert members[i] in members;
      LabelsAre(members, sid);
      WantedAre(members, sid);
      CodesAre(members);
    }
    forall sid | sid in f.stops && !Listed(members, sid)
      ensures SameStop(g.stops[sid], f.stops[sid].(parent := if f.stops[sid].parent == Some(ch.key) then None else f.stops[sid].parent))
    {
      WantedAre(members, sid);
    }
  }

  lemma CodesAre(members: seq<Member>)
    ensures MembersOf(members).codes == CodesOf(members)
  {
    hide CodesOf;
  }

  lemma ApprovalAppends(sys: System, u: User, pid: nat, id: SetId, name: string, position: Position, members: Option<seq<Member>>)
    returns (ch: Change, chosen: seq<Member>)
    requires ApproveProposal(sys, u, pid, id, name, position, members).Done?
    ensures var now := ApproveProposal(sys, u, pid, id, name, position, members).sys;
            && pid in sys.proposals && pid in now.proposals && id in sys.sets && id in now.sets
            && now.sets[id].changes == sys.sets[id].changes + [ch]
            && now.proposals[pid].link == Link(CaseApproved, Some(id), Some(ch.id))
            && ch.key == sys.proposals[pid].station
            && chosen == (if members.Some? then members.value else sys.proposals[pid].members)
    ensures ch.edit == StationCreate(Stripped(name), position, Some(MembersOf(chosen)))
    ensures var was := Projected(sys.feed, sys.sets[id].changes);
            ch.key !in was.stops && forall m | m in chosen :: m.stop in was.stops
  {
    hide Projected, Chosen, MembersOf;
    chosen := if members.Some? then members.value else sys.proposals[pid].members;
    ch := ApproveProposal(sys, u, pid, id, name, position, members).sys.sets[id].changes[|sys.sets[id].changes|];
  }

  /** After an accepted proposal the draft shows, and its commit publishes, the station
      with the name and point the approval gave and the members it chose. */
  lemma ApprovalOpens(sys: System, u: User, pid: nat, id: SetId, name: string, position: Position, members: Option<seq<Member>>)
    requires ApproveProposal(sys, u, pid, id, name, position, members).Done?
    ensures var now := ApproveProposal(sys, u, pid, id, name, position, members).sys;
            && pid in sys.proposals && pid in now.proposals && id in sys.sets && id in now.sets
            && |now.sets[id].changes| == |sys.sets[id].changes| + 1
            && now.proposals[pid].link == Link(CaseApproved, Some(id), Some(now.sets[id].changes[|sys.sets[id].changes|].id))
            && var was, station := Projected(sys.feed, sys.sets[id].changes), sys.proposals[pid].station;
            && var chosen := if members.Some? then members.value else sys.proposals[pid].members;
            && Opened(was, Projected(sys.feed, now.sets[id].changes), station, Stripped(name), position, chosen)
            && Opened(was, AfterCommit(sys.feed, now.sets[id].changes), station, Stripped(name), position, chosen)
  {
    var ch, chosen := ApprovalAppends(sys, u, pid, id, name, position, members);
    hide *;
    var front := sys.sets[id].changes;
    ProjectionWrites(sys.feed, front, ch);
    CommitWrites(sys.feed, front, ch);
    StationOpens(Projected(sys.feed, front), Projected(sys.feed, front + [ch]), ch, Stripped(name), position, chosen);
    StationOpens(Projected(sys.feed, front), AfterCommit(sys.feed, front + [ch]), ch, Stripped(name), position, chosen);
  }
}
