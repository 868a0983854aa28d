/** Settling station proposals and coordinate reviews through a draft. */
module Cases {
  import opened Records
  import opened Replay
  import opened RowRules
  import opened Texts
  import opened Integrity
  import opened Drafts

  // ---- station proposals

  predicate MemberFits(proj: Feed, m: Member) {
    && m.stop in proj.stops
    && !proj.stops[m.stop].deleted
    && proj.stops[m.stop].locationType == 0
    && proj.stops[m.stop].parent.None?
  }

  predicate ProposalFits(proj: Feed, p: Proposal, name: string, members: seq<Member>) {
    && !Blank(name)
    && p.station !in proj.stops
    && |members| >= 2
    && forall m | m in members :: MemberFits(proj, m)
  }

  function MembersOf(members: seq<Member>): Members {
    Members(seq(|members|, i requires 0 <= i < |members| => members[i].stop), CodesOf(members))
  }

  /** The labels by stop; of a stop listed twice the last counts. */
  function CodesOf(members: seq<Member>): map<Id, Option<string>> {
    if members == [] then map[] else
      var last := members[|members| - 1];
      CodesOf(members[..|members| - 1])[last.stop := last.platform]
  }

  /** The members chosen are some of the proposal's, none of them twice. */
  predicate Chosen(p: Proposal, members: seq<Member>) {
    && (forall m | m in members :: exists k :: 0 <= k < |p.members| && p.members[k].stop == m.stop)
    && (forall i, j | 0 <= i < j < |members| :: members[i].stop != members[j].stop)
  }

  /** A reviewer approves a proposal into a draft, with what they corrected of it. */
  function ApproveProposal(sys: System, u: User, pid: nat, id: SetId, name: string, position: Position,
                           members: Option<seq<Member>>): Outcome {
    if pid !in sys.proposals then Refused(UnknownCase) else
      var e := EditProblem(sys, u, id);
      var p := sys.proposals[pid];
      if e.Some? then Refused(e.value)
      else if p.link.status != CasePending then Refused(CaseNotOpen)
      else if members.Some? && !Chosen(p, members.value) then Refused(BadChange)
      else
        var chosen := if members.Some? then members.value else p.members;
        if !ProposalFits(Projected(sys.feed, sys.sets[id].changes), p, name, chosen) then Refused(CaseHasProblems) else
          var added := Appended(sys, id, p.station, StationCreate(Stripped(name), position, Some(MembersOf(chosen))), None, None);
          Done(added.(proposals := sys.proposals[pid := p.(link := Link(CaseApproved, Some(id), Some(sys.nextChange)))]))
  }

  function RejectProposal(sys: System, u: User, pid: nat, note: string): Outcome {
    if pid !in sys.proposals then Refused(UnknownCase) else
      var p := sys.proposals[pid];
      if Rank(u.role) < 1 then Refused(Forbidden)
      else if Blank(note) then Refused(CommentRequired)
      else if p.link.status != CasePending then Refused(CaseNotOpen)
      else Done(sys.(proposals := sys.proposals[pid := p.(link := p.link.(status := CaseRejected))]))
  }

  function ReopenProposal(sys: System, u: User, pid: nat): Outcome {
    if pid !in sys.proposals then Refused(UnknownCase) else
      var p := sys.proposals[pid];
      if Rank(u.role) < 1 then Refused(Forbidden)
      else if p.link.status != CaseRejected then Refused(CaseNotOpen)
      else Done(sys.(proposals := sys.proposals[pid := p.(link := p.link.(status := CasePending))]))
  }

  // ---- coordinate reviews

  /** The draft an action of the review goes into: any while it is waiting, and the
      one that carries it once it has a change. */
  function ActionProblem(sys: System, u: User, rid: nat, id: SetId): Option<Refusal>
    requires rid in sys.reviews
  {
    var link := sys.reviews[rid].link;
    var e := EditProblem(sys, u, id);
    if e.Some? then e
    else if link.status == CaseApproved && link.set_ != Some(id) then Some(CaseInOtherDraft)
    else if link.status != CasePending && link.status != CaseApproved then Some(CaseNotOpen)
    else None
  }

  /** The reviewed stop exists, live and in the draft, and is a stop. */
  predicate StopOpen(live: Feed, proj: Feed, sid: Id) {
    && sid in live.stops
    && !live.stops[sid].deleted
    && live.stops[sid].locationType != 1
    && sid in proj.stops
    && !proj.stops[sid].deleted
  }

  /** The review is carried by the draft, through the change named. */
  function Carried(sys: System, rid: nat, id: SetId, cid: nat): System
    requires rid in sys.reviews
  {
    sys.(reviews := sys.reviews[rid := sys.reviews[rid].(link := Link(CaseApproved, Some(id), Some(cid)))])
  }

  predicate MovesReview(changes: seq<Change>, rid: nat) {
    exists i :: 0 <= i < |changes| && changes[i].edit.StopUpdate? && changes[i].review == Some(rid)
  }

  function MoveReview(sys: System, u: User, rid: nat, id: SetId, position: Position): Outcome {
    if rid !in sys.reviews then Refused(UnknownCase) else
      var e := ActionProblem(sys, u, rid, id);
      if e.Some? then Refused(e.value) else
        var changes, sid := sys.sets[id].changes, sys.reviews[rid].stop;
        if MovesReview(changes, rid) then Refused(DraftConflict)
        else if !StopOpen(sys.feed, Projected(sys.feed, changes), sid) then Refused(CaseHasProblems)
        else if sys.feed.stops[sid].position == position then Refused(BadChange)
        else
          var edit := StopUpdate(None, Some(position), None);
          Done(Carried(Appended(sys, id, sid, edit, Some(sys.feed.stops[sid].version), Some(rid)), rid, id, sys.nextChange))
  }

  predicate MergeClash(changes: seq<Change>, rid: nat, sid: Id, into: Id) {
    exists i :: 0 <= i < |changes|
      && ((OnStop(changes[i].edit) && (changes[i].key == sid || changes[i].key == into))
          || (changes[i].edit.StopMerge? && changes[i].edit.into == sid)
          || changes[i].review == Some(rid))
  }

  function MergeReview(sys: System, u: User, rid: nat, id: SetId, into: Id, keepName: bool): Outcome {
    if rid !in sys.reviews then Refused(UnknownCase) else
      var e := ActionProblem(sys, u, rid, id);
      if e.Some? then Refused(e.value) else
        var changes, sid := sys.sets[id].changes, sys.reviews[rid].stop;
        if MergeClash(changes, rid, sid, into) then Refused(DraftConflict)
        else if !StopOpen(sys.feed, Projected(sys.feed, changes), sid) then Refused(CaseHasProblems)
        else if into == sid || into !in sys.feed.stops || sys.feed.stops[into].deleted || sys.feed.stops[into].locationType == 1
        then Refused(CaseHasProblems)
        else
          var edit := StopMerge(into, Keep(keepName, false), Some(sys.feed.stops[into].version));
          Done(Carried(Appended(sys, id, sid, edit, Some(sys.feed.stops[sid].version), Some(rid)), rid, id, sys.nextChange))
  }

  /** A stop id already taken, live or by a creation in a draft that is not discarded. */
  predicate InUse(sys: System, sid: Id) {
    sid in sys.feed.stops
    || exists id :: id in sys.sets && sys.sets[id].status != Discarded && CreatesIn(sys.sets[id].changes, sid)
  }

  predicate CreatesIn(changes: seq<Change>, sid: Id) {
    exists i :: 0 <= i < |changes| && (changes[i].edit.StopCreate? || changes[i].edit.StationCreate?) && changes[i].key == sid
  }

  /** The listed routes that call at a stop. */
  function Calling(live: Feed, sid: Id): set<Id> {
    set rid | rid in RoutesUsing(live.rows, sid) && rid in live.routes && !live.routes[rid].deleted
  }

  predicate SplitClash(changes: seq<Change>, sid: Id, routes: seq<Id>) {
    exists i :: 0 <= i < |changes|
      && ((changes[i].edit.RowsReplace? && changes[i].key in routes)
          || (OnStop(changes[i].edit) && changes[i].key == sid)
          || (changes[i].edit.StopMerge? && changes[i].edit.into == sid))
  }

  /** Distinct routes that call at the stop, leaving one that still does. */
  predicate Splittable(live: Feed, sid: Id, routes: seq<Id>) {
    && routes != []
    && (forall i, j | 0 <= i < j < |routes| :: routes[i] != routes[j])
    && (forall i | 0 <= i < |routes| :: routes[i] in Calling(live, sid))
    && !(Calling(live, sid) <= set rid | rid in routes)
  }

  /** The stop list changes of a split: one per route, numbered from `next`. */
  function SplitChanges(live: Feed, sid: Id, fresh_: Id, routes: seq<Id>, rid: nat, next: nat): seq<Change> {
    if routes == [] then [] else
      var n := |routes| - 1;
      var route := routes[n];
      SplitChanges(live, sid, fresh_, routes[..n], rid, next)
      + [Change(next + n, route, RowsReplace(Renamed(RowsOf(live.rows, route), sid, fresh_), Some(RowsOf(live.rows, route))), None, Some(rid))]
  }

  /** Some routes go from the reviewed stop to a new one at the given point. */
  function SplitReview(sys: System, u: User, rid: nat, id: SetId, routes: seq<Id>, position: Position,
                       name: Option<string>, minted: Id): Outcome {
    if rid !in sys.reviews then Refused(UnknownCase) else
      var e := ActionProblem(sys, u, rid, id);
      if e.Some? then Refused(e.value) else
        var cs, sid := sys.sets[id], sys.reviews[rid].stop;
        if SplitClash(cs.changes, sid, routes) then Refused(DraftConflict)
        else if !StopOpen(sys.feed, sys.feed, sid) || !Splittable(sys.feed, sid, routes) then Refused(CaseHasProblems)
        else if InUse(sys, minted) then Refused(IdInUse)
        else
          var called := if name.Some? && !Blank(name.value) then Stripped(name.value) else sys.feed.stops[sid].name;
          var added := SplitList(sys, rid, routes, position, called, minted);
          var now := WithSet(sys, id, cs.(changes := cs.changes + added));
          Done(Carried(now.(nextChange := sys.nextChange + |added|), rid, id, sys.nextChange))
  }

  /** The changes of a split: the new stop's creation, then one stop list per route. */
  function SplitList(sys: System, rid: nat, routes: seq<Id>, position: Position, called: string, minted: Id): seq<Change>
    requires rid in sys.reviews
  {
    [Change(sys.nextChange, minted, StopCreate(called, position, None), None, Some(rid))]
    + SplitChanges(sys.feed, sys.reviews[rid].stop, minted, routes, rid, sys.nextChange + 1)
  }

  function ConfirmReview(sys: System, u: User, rid: nat): Outcome {
    if rid !in sys.reviews then Refused(UnknownCase) else
      var rv := sys.reviews[rid];
      if Rank(u.role) < 1 then Refused(Forbidden)
      else if rv.link.status != CasePending then Refused(CaseNotOpen)
      else Done(sys.(reviews := sys.reviews[rid := rv.(link := rv.link.(status := CaseConfirmed))]))
  }

  function ReopenReview(sys: System, u: User, rid: nat): Outcome {
    if rid !in sys.reviews then Refused(UnknownCase) else
      var rv := sys.reviews[rid];
      if Rank(u.role) < 1 then Refused(Forbidden)
      else if rv.link.status != CaseConfirmed then Refused(CaseNotOpen)
      else if exists o :: o in sys.reviews && o != rid && sys.reviews[o].stop == rv.stop
                          && (sys.reviews[o].link.status == CasePending || sys.reviews[o].link.status == CaseApproved)
      then Refused(CaseNotOpen)
      else Done(sys.(reviews := sys.reviews[rid := rv.(link := rv.link.(status := CasePending))]))
  }
}
