/** When each call on a draft is accepted, and what an accepted one leaves. */
module Calls {
  import opened Records
  import opened Replay
  import opened Texts
  import opened Validation
  import opened Conflicts
  import opened Passing
  import opened Drafts
  import opened Cases
  import opened Steps
  import opened Lifecycle

  /** Every change fits the data it is replayed on, and nothing it was made against was
      written since. */
  ghost predicate Ready(sys: System, changes: seq<Change>) {
    var stops := map r | r in sys.reviews :: sys.reviews[r].stop;
    var ctx := Context(sys.feed, Projected(sys.feed, changes), changes, stops);
    forall k | 0 <= k < |changes| ::
      && Fits(ctx, Projected(sys.feed, changes[..k]), changes[k])
      && UpToDate(sys.feed, Projected(sys.feed, changes[..k]), changes[k])
  }

  lemma ReadyIs(sys: System, changes: seq<Change>)
    ensures Ready(sys, changes) <==> Passes(sys, changes) && !Overtaken(sys, changes)
  {
    hide Fits, UpToDate, Projected, Valid, SetConflicts;
    DraftPassesExactly(sys.feed, changes, ReviewStops(sys.reviews));
    DraftConflictsExactly(sys.feed, changes);
  }

  predicate InStatus(sys: System, id: SetId, status: Status) {
    id in sys.sets && sys.sets[id].status == status
  }

  predicate OwnDraft(sys: System, u: User, id: SetId) {
    id in sys.sets && sys.sets[id].submittedBy == Some(u.id)
  }

  predicate Edits(u: User) {
    u.role != Viewer
  }

  predicate Reviews(u: User) {
    u.role == Approver || u.role == Admin
  }

  /** A draft can be submitted exactly when it has changes and they are ready. */
  lemma SubmitExactly(sys: System, u: User, id: SetId)
    ensures Submit(sys, u, id).Done?
       <==> Edits(u) && InStatus(sys, id, Draft) && sys.sets[id].changes != [] && Ready(sys, sys.sets[id].changes)
  {
    hide Ready, Passes, Overtaken;
    if id in sys.sets {
      ReadyIs(sys, sys.sets[id].changes);
    }
    hide Projected, SetConflicts, Valid;
  }

  /** It can be committed exactly when it is approved and still ready; its submitter
      does so only as an admin who approved it too. */
  lemma CommitExactly(sys: System, u: User, id: SetId)
    ensures Commit(sys, u, id).Done?
       <==> Reviews(u) && InStatus(sys, id, Approved) && Ready(sys, sys.sets[id].changes)
            && (OwnDraft(sys, u, id) ==> u.role == Admin && sys.sets[id].selfApproved)
  {
    hide Ready, Passes, Overtaken, CommittedSystem;
    if id in sys.sets {
      ReadyIs(sys, sys.sets[id].changes);
    }
    hide AfterCommit, Projected, SetConflicts, Valid;
  }

  predicate OnStatus(e: Event) {
    e.ESubmit? || e.EReopen? || e.EApprove? || e.EReject? || e.ECommit? || e.EDiscard?
  }

  /** Who may do it, and to what draft. */
  ghost predicate Permitted(sys: System, e: Event)
    requires OnStatus(e)
  {
    match e
    case ESubmit(u, id) => Edits(u) && InStatus(sys, id, Draft) && sys.sets[id].changes != [] && Ready(sys, sys.sets[id].changes)
    case EReopen(u, id) =>
      (InStatus(sys, id, Submitted) || InStatus(sys, id, Rejected) || InStatus(sys, id, Approved))
      && (sys.sets[id].createdBy == u.id || OwnDraft(sys, u, id) || u.role == Admin)
    case EApprove(u, id, selfApprove) =>
      Reviews(u) && InStatus(sys, id, Submitted) && (OwnDraft(sys, u, id) ==> u.role == Admin && selfApprove)
    case EReject(u, id, comment) =>
      Reviews(u) && InStatus(sys, id, Submitted) && !OwnDraft(sys, u, id) && Stripped(comment) != ""
    case ECommit(u, id) =>
      Reviews(u) && InStatus(sys, id, Approved) && Ready(sys, sys.sets[id].changes)
      && (OwnDraft(sys, u, id) ==> u.role == Admin && sys.sets[id].selfApproved)
    case EDiscard(u, id) =>
      id in sys.sets && !InStatus(sys, id, Committed) && !InStatus(sys, id, Discarded)
      && (sys.sets[id].createdBy == u.id || u.role == Admin)
  }

  function Target(e: Event): Status
    requires OnStatus(e)
  {
    if e.ESubmit? then Submitted
    else if e.EReopen? then Draft
    else if e.EApprove? then Approved
    else if e.EReject? then Rejected
    else if e.ECommit? then Committed
    else Discarded
  }

  lemma SimpleStatusCalls(sys: System, e: Event)
    requires e.EReopen? || e.EApprove? || e.EReject? || e.EDiscard?
    ensures Accepted(sys, e) <==> Permitted(sys, e)
    ensures Accepted(sys, e) ==> InStatus(Next(sys, e), e.id, Target(e))
  {
    hide Blank, Ready;
    if e.EReject? {
      BlankStrips(e.comment);
    }
  }

  /** A call on a draft's status is accepted exactly when it is permitted, and then the
      draft has the status asked for. */
  lemma StatusCallsExactly(sys: System, e: Event)
    requires OnStatus(e)
    ensures Accepted(sys, e) <==> Permitted(sys, e)
    ensures Accepted(sys, e) ==> InStatus(Next(sys, e), e.id, Target(e))
  {
    hide Ready, Passes, Overtaken;
    if e.ESubmit? {
      SubmitExactly(sys, e.u, e.id);
    } else if e.ECommit? {
      CommitExactly(sys, e.u, e.id);
      hide Commit;
      if Accepted(sys, e) {
        CommitSettles(sys, e.u, e.id);
      }
    } else {
      SimpleStatusCalls(sys, e);
    }
    hide AfterCommit, Projected, SetConflicts, Valid;
  }

  // ---- editing

  /** The two records of a merge: live ones, apart, and both stops or both stations. */
  predicate CanMerge(proj: Feed, key: Id, edit: Edit)
    requires IsMerge(edit)
  {
    && edit.into != key && LiveStop(proj, key) && LiveStop(proj, edit.into)
    && (edit.StopMerge? ==> proj.stops[key].locationType != 1 && proj.stops[edit.into].locationType != 1)
    && (edit.StationMerge? ==> LiveStation(proj, key) && LiveStation(proj, edit.into) && proj.stops[edit.into].parent == None)
  }

  /** What a draft takes: by the kind of change and by what the draft shows. */
  predicate Takes(live: Feed, changes: seq<Change>, key: Id, edit: Edit, review: Option<nat>) {
    var proj := Projected(live, changes);
    match edit
    case StopCreate(_, _, _) => true
    case RouteCreate(_) => true
    case RowsReplace(_, _) => true
    case StationCreate(_, _, members) => members.Some? ==> |members.value.want| >= 2
    case StopUpdate(_, position, _) => key in proj.stops && (review.Some? ==> position.Some?)
    case StationUpdate(_, _, members) => key in proj.stops && (members.Some? ==> |members.value.want| >= 2)
    case RouteUpdate(_, _) => key in proj.routes
    case StopDelete => key in proj.stops && review == None
    case StationDelete => key in proj.stops && review == None
    case RouteDelete =>
      key in proj.routes && review == None
      && forall i | 0 <= i < |changes| && changes[i].key == key ::
           !changes[i].edit.RowsReplace? && !changes[i].edit.RouteUpdate? && !changes[i].edit.RouteDelete?
    case StopMerge(_, _, _) => CanMerge(proj, key, edit)
    case StationMerge(_, _, _) => CanMerge(proj, key, edit)
  }

  lemma AddExactly(sys: System, u: User, id: SetId, key: Id, edit: Edit, base: Option<int>, review: Option<nat>)
    ensures AddChange(sys, u, id, key, edit, base, review).Done?
       <==> Edits(u) && InStatus(sys, id, Draft) && Takes(sys.feed, sys.sets[id].changes, key, edit, review)
  {
    hide Projected, Appended, Recorded;
  }

  /** Two payloads for the same entity and operation. */
  predicate SameOperation(a: Edit, b: Edit) {
    && OnStop(a) == OnStop(b) && OnStation(a) == OnStation(b) && a.RowsReplace? == b.RowsReplace?
    && IsCreate(a) == IsCreate(b) && IsDelete(a) == IsDelete(b) && IsMerge(a) == IsMerge(b)
  }

  lemma SameKindIs(a: Edit, b: Edit)
    ensures SameKind(a, b) <==> SameOperation(a, b)
  {
  }

  /** The payload of a change is replaced, and its base where one is sent; what it is
      about stays, and so do all other changes. */
  lemma PutReplaces(sys: System, u: User, id: SetId, cid: nat, edit: Edit, base: Option<int>, review: Option<nat>)
    requires PutChange(sys, u, id, cid, edit, base, review).Done?
    ensures Edits(u) && InStatus(sys, id, Draft)
    ensures var was, now := sys.sets[id].changes, PutChange(sys, u, id, cid, edit, base, review).sys;
            exists i :: 0 <= i < |was| && was[i].id == cid && (forall k | 0 <= k < i :: was[k].id != cid)
              && SameOperation(was[i].edit, edit)
              && now == sys.(sets := sys.sets[id := sys.sets[id].(changes := now.sets[id].changes)])
              && var changes := now.sets[id].changes;
              && |changes| == |was| && (forall k | 0 <= k < |was| && k != i :: changes[k] == was[k])
              && changes[i].id == cid && changes[i].key == was[i].key && changes[i].edit == edit
              && changes[i].base == (if base.Some? && base.value != 0 then base else was[i].base)
              && changes[i].review == (if was[i].review.Some? then was[i].review else review)
  {
    var i := IndexOf(sys.sets[id].changes, cid);
    SameKindIs(sys.sets[id].changes[i].edit, edit);
    hide IndexOf, SameKind, SameOperation;
  }

  // ---- what leaves with a change

  /** The change the removal is about. */
  predicate FirstWith(changes: seq<Change>, i: nat, cid: nat) {
    i < |changes| && changes[i].id == cid && forall k | 0 <= k < i :: changes[k].id != cid
  }

  /** The change was made for a coordinate review that the draft carries. */
  predicate ForReview(sys: System, id: SetId, ch: Change) {
    && ch.review.Some? && ch.review.value in sys.reviews
    && sys.reviews[ch.review.value].link.status == CaseApproved && sys.reviews[ch.review.value].link.set_ == Some(id)
  }

  /** A stop list that leaves along with the new stop of a split. */
  predicate LeavesWith(sys: System, id: SetId, ch: Change, other: Change) {
    && ForReview(sys, id, ch) && ch.edit.StopCreate?
    && other.edit.RowsReplace? && other.review == ch.review
    && exists i :: 0 <= i < |other.edit.rows| && other.edit.rows[i].stop == Some(ch.key)
  }

  lemma {:induction false} LastOfIs(changes: seq<Change>, review: nat)
    ensures LastOf(changes, review).None? <==> forall i | 0 <= i < |changes| && OnStop(changes[i].edit) :: changes[i].review != Some(review)
    ensures LastOf(changes, review).Some? ==>
              exists i :: 0 <= i < |changes| && changes[i].id == LastOf(changes, review).value
                && OnStop(changes[i].edit) && changes[i].review == Some(review)
                && forall k | i < k < |changes| && OnStop(changes[k].edit) :: changes[k].review != Some(review)
  {
    if changes != [] {
      LastOfIs(changes[..|changes| - 1], review);
    }
  }

  lemma RemoveExactly(sys: System, u: User, id: SetId, cid: nat)
    ensures RemoveChange(sys, u, id, cid).Done?
       <==> Edits(u) && InStatus(sys, id, Draft) && exists i :: 0 <= i < |sys.sets[id].changes| && sys.sets[id].changes[i].id == cid
  {
    hide AfterRemoval, ReturnedProposalOf;
    if id in sys.sets {
      var i := IndexOf(sys.sets[id].changes, cid);
      hide IndexOf;
    }
  }

  /** What is left of a list when some of it is taken out: the rest, in its order. */
  predicate LeftOf(left: seq<Change>, all: seq<Change>) {
    if all == [] then left == [] else
      var last := all[|all| - 1];
      || LeftOf(left, all[..|all| - 1])
      || (left != [] && left[|left| - 1] == last && LeftOf(left[..|left| - 1], all[..|all| - 1]))
  }

  lemma {:induction false} KeepingIsLeft(all: seq<Change>, review: nat, created: Id)
    ensures LeftOf(Keeping(all, review, created), all) && LeftOf(all, all)
  {
    if all != [] {
      var front, last := all[..|all| - 1], all[|all| - 1];
      KeepingIsLeft(front, review, created);
      hide GoesWith;
      assert Keeping(front, review, created) + [] == Keeping(front, review, created);
      assert (Keeping(front, review, created) + [last])[..|Keeping(front, review, created)|] == Keeping(front, review, created);
    }
  }

  /** Of a draft exactly the change leaves, with the stop lists of the stop it split off. */
  lemma RemoveTakesOut(sys: System, u: User, id: SetId, cid: nat, i: nat)
    requires RemoveChange(sys, u, id, cid).Done? && FirstWith(sys.sets[id].changes, i, cid)
    ensures var was, now := sys.sets[id].changes, RemoveChange(sys, u, id, cid).sys;
            && now.sets == sys.sets[id := sys.sets[id].(changes := now.sets[id].changes)]
            && LeftOf(now.sets[id].changes, was[..i] + was[i + 1..])
            && forall c :: c in now.sets[id].changes <==> c in was[..i] + was[i + 1..] && !LeavesWith(sys, id, was[i], c)
  {
    hide Keeping, LastOf, LeftOf;
    var was := sys.sets[id].changes;
    assert IndexOf(was, cid) == i;
    hide IndexOf, FirstWith;
    KeepingIsLeft(was[..i] + was[i + 1..], if was[i].review.Some? then was[i].review.value else 0, was[i].key);
    if was[i].review.Some? {
      KeepingKeeps(was[..i] + was[i + 1..], was[i].review.value, was[i].key);
    }
  }

  // ---- the cases

  /** The case is carried by the draft. */
  predicate Carries(id: SetId, link: Link) {
    link.status == CaseApproved && link.set_ == Some(id)
  }

  /** Exactly the cases given take the new link, and nothing else of any case changes. */
  predicate ProposalsAre(was: map<nat, Proposal>, now: map<nat, Proposal>, id: SetId, link: Option<nat>, settled: CaseStatus) {
    && now.Keys == was.Keys
    && forall p | p in was ::
         && now[p] == was[p].(link := now[p].link)
         && now[p].link == if !Carries(id, was[p].link) || (link.Some? && was[p].link.change != link) then was[p].link
                           else if settled == CasePending then Link(CasePending, None, None)
                           else Link(settled, was[p].link.set_, was[p].link.change)
  }

  predicate ReviewsAre(was: map<nat, Review>, now: map<nat, Review>, id: SetId, settled: CaseStatus) {
    && now.Keys == was.Keys
    && forall r | r in was ::
         && now[r] == was[r].(link := now[r].link)
         && now[r].link == if !Carries(id, was[r].link) then was[r].link
                           else if settled == CasePending then Link(CasePending, None, None)
                           else Link(settled, was[r].link.set_, was[r].link.change)
  }

  /** Discarding leaves the tables as they are, and every case the draft carried waits. */
  lemma DiscardReturns(sys: System, u: User, id: SetId)
    requires Discard(sys, u, id).Done?
    ensures var now := Discard(sys, u, id).sys;
            && ProposalsAre(sys.proposals, now.proposals, id, None, CasePending)
            && ReviewsAre(sys.reviews, now.reviews, id, CasePending)
            && now == sys.(sets := sys.sets[id := sys.sets[id].(status := Discarded)],
                           proposals := now.proposals, reviews := now.reviews)
  {
  }

  /** A commit publishes the draft under the next version, and every case the draft
      carried is settled with it. */
  lemma CommitSettles(sys: System, u: User, id: SetId)
    requires Commit(sys, u, id).Done?
    ensures var now := Commit(sys, u, id).sys;
            && ProposalsAre(sys.proposals, now.proposals, id, None, CaseCommitted)
            && ReviewsAre(sys.reviews, now.reviews, id, CaseCommitted)
            && now == System(AfterCommit(sys.feed, sys.sets[id].changes), sys.version + 1,
                             sys.sets[id := sys.sets[id].(status := Committed, committedBy := Some(u.id),
                                                          committedVersion := Some(sys.version + 1))],
                             now.proposals, now.reviews, sys.nextChange)
  {
    hide CommitProblem, AfterCommit;
  }

  /** The review is left to its last change on a stop, or waits where none is left. */
  predicate LeftTo(changes: seq<Change>, rid: nat, id: SetId, link: Link) {
    if forall i | 0 <= i < |changes| && OnStop(changes[i].edit) :: changes[i].review != Some(rid)
    then link == Link(CasePending, None, None)
    else exists i :: 0 <= i < |changes| && link == Link(CaseApproved, Some(id), Some(changes[i].id))
           && OnStop(changes[i].edit) && changes[i].review == Some(rid)
           && forall k | i < k < |changes| && OnStop(changes[k].edit) :: changes[k].review != Some(rid)
  }

  /** With a change the proposal that carried it waits again, and its review is left to
      what is left of it. Nothing else changes outside the draft. */
  lemma RemoveReturns(sys: System, u: User, id: SetId, cid: nat, i: nat)
    requires RemoveChange(sys, u, id, cid).Done? && FirstWith(sys.sets[id].changes, i, cid)
    ensures var ch, now := sys.sets[id].changes[i], RemoveChange(sys, u, id, cid).sys;
            && ProposalsAre(sys.proposals, now.proposals, id, Some(cid), CasePending)
            && now == sys.(sets := now.sets, proposals := now.proposals, reviews := now.reviews)
            && now.reviews.Keys == sys.reviews.Keys
            && (forall r | r in sys.reviews && !(ForReview(sys, id, ch) && ch.review == Some(r)) :: now.reviews[r] == sys.reviews[r])
            && (ForReview(sys, id, ch) ==>
                  var r := ch.review.value;
                  && now.reviews[r] == sys.reviews[r].(link := now.reviews[r].link)
                  && LeftTo(now.sets[id].changes, r, id, now.reviews[r].link))
  {
    hide Keeping, LastOf;
    var was := sys.sets[id].changes;
    assert IndexOf(was, cid) == i;
    hide IndexOf;
    var ch := was[i];
    if ForReview(sys, id, ch) {
      LastOfIs(RemoveChange(sys, u, id, cid).sys.sets[id].changes, ch.review.value);
    }
  }

  // ---- settling cases

  /** A stop that can join a new station. */
  predicate Joins(proj: Feed, sid: Id) {
    LiveStop(proj, sid) && proj.stops[sid].locationType == 0 && proj.stops[sid].parent == None
  }

  lemma ProposalFitsIs(proj: Feed, p: Proposal, name: string, chosen: seq<Member>)
    ensures ProposalFits(proj, p, name, chosen)
       <==> Stripped(name) != "" && p.station !in proj.stops
            && |chosen| >= 2 && forall m | m in chosen :: Joins(proj, m.stop)
  {
    BlankStrips(name);
    hide Blank, Stripped;
  }

  /** A proposal opens a station exactly where it waits, the station's id is free in the
      draft, it is called something, and two or more of its stops can join it. */
  lemma ProposalExactly(sys: System, u: User, pid: nat, id: SetId, name: string, position: Position, members: Option<seq<Member>>)
    ensures ApproveProposal(sys, u, pid, id, name, position, members).Done?
       <==> pid in sys.proposals && sys.proposals[pid].link.status == CasePending
            && Edits(u) && InStatus(sys, id, Draft)
            && var p, proj := sys.proposals[pid], Projected(sys.feed, sys.sets[id].changes);
            && var chosen := if members.Some? then members.value else p.members;
            && Stripped(name) != "" && p.station !in proj.stops
            && |chosen| >= 2 && (forall m | m in chosen :: Joins(proj, m.stop))
            && (members.Some? ==>
                  && (forall m | m in chosen :: exists k :: 0 <= k < |p.members| && p.members[k].stop == m.stop)
                  && (forall i, j | 0 <= i < j < |chosen| :: chosen[i].stop != chosen[j].stop))
  {
    if pid in sys.proposals && id in sys.sets {
      var p := sys.proposals[pid];
      ProposalFitsIs(Projected(sys.feed, sys.sets[id].changes), p, name, if members.Some? then members.value else p.members);
    }
    hide Blank, Stripped, Projected, ProposalFits, Joins, MembersOf, Appended;
  }

  /** The review waits, or is carried by the draft already; the draft can be edited, and
      the stop is a live one that is no station. */
  predicate OpenIn(sys: System, u: User, rid: nat, id: SetId) {
    && rid in sys.reviews && Edits(u) && InStatus(sys, id, Draft)
    && (sys.reviews[rid].link.status == CasePending || Carries(id, sys.reviews[rid].link))
    && PlainStop(sys.feed, sys.reviews[rid].stop)
  }

  predicate PlainStop(live: Feed, sid: Id) {
    LiveStop(live, sid) && live.stops[sid].locationType != 1
  }

  /** A reviewed stop is moved exactly once in a draft that shows it, to another point. */
  lemma MoveExactly(sys: System, u: User, rid: nat, id: SetId, position: Position)
    ensures MoveReview(sys, u, rid, id, position).Done?
       <==> OpenIn(sys, u, rid, id)
            && var sid, changes := sys.reviews[rid].stop, sys.sets[id].changes;
            && LiveStop(Projected(sys.feed, changes), sid)
            && sys.feed.stops[sid].position != position
            && (forall i | 0 <= i < |changes| && changes[i].edit.StopUpdate? :: changes[i].review != Some(rid))
  {
    hide Projected, Appended;
  }

  /** It is merged into another live stop exactly where the draft does nothing else to
      either, moves nothing else into it, and holds nothing of the review. */
  lemma MergeExactly(sys: System, u: User, rid: nat, id: SetId, into: Id, keepName: bool)
    ensures MergeReview(sys, u, rid, id, into, keepName).Done?
       <==> OpenIn(sys, u, rid, id)
            && var sid, changes := sys.reviews[rid].stop, sys.sets[id].changes;
            && LiveStop(Projected(sys.feed, changes), sid)
            && into != sid && PlainStop(sys.feed, into)
            && (forall i | 0 <= i < |changes| ::
                  && changes[i].review != Some(rid)
                  && (OnStop(changes[i].edit) ==> changes[i].key != sid && changes[i].key != into)
                  && (changes[i].edit.StopMerge? ==> changes[i].edit.into != sid))
  {
    hide Projected, Appended;
  }

  /** A route of the timetable that calls at the stop. */
  predicate CallsAt(live: Feed, rid: Id, sid: Id) {
    LiveRoute(live, rid) && rid in live.rows
    && exists i :: 0 <= i < |live.rows[rid]| && live.rows[rid][i].stop == Some(sid)
  }

  /** Routes are split off exactly where they call at the stop, one more that calls there
      stays, the new stop's id is free everywhere, and the draft holds nothing else about
      the stop or those lists. */
  lemma SplitExactly(sys: System, u: User, rid: nat, id: SetId, routes: seq<Id>, position: Position,
                     name: Option<string>, minted: Id)
    ensures SplitReview(sys, u, rid, id, routes, position, name, minted).Done?
       <==> OpenIn(sys, u, rid, id)
            && var sid, changes := sys.reviews[rid].stop, sys.sets[id].changes;
            && routes != [] && (forall i, j | 0 <= i < j < |routes| :: routes[i] != routes[j])
            && (forall i | 0 <= i < |routes| :: CallsAt(sys.feed, routes[i], sid))
            && (exists r :: r in sys.feed.rows && CallsAt(sys.feed, r, sid) && r !in routes)
            && minted !in sys.feed.stops
            && (forall d, i | d in sys.sets && sys.sets[d].status != Discarded && 0 <= i < |sys.sets[d].changes| ::
                  sys.sets[d].changes[i].edit.StopCreate? || sys.sets[d].changes[i].edit.StationCreate?
                  ==> sys.sets[d].changes[i].key != minted)
            && (forall i | 0 <= i < |changes| ::
                  && (changes[i].edit.RowsReplace? ==> changes[i].key !in routes)
                  && (OnStop(changes[i].edit) ==> changes[i].key != sid)
                  && (changes[i].edit.StopMerge? ==> changes[i].edit.into != sid))
  {
    if rid in sys.reviews && id in sys.sets {
      var sid := sys.reviews[rid].stop;
      SplittableIs(sys.feed, sid, routes);
      InUseIs(sys, minted);
    }
    hide InUse, Splittable, CallsAt, SplitList;
  }

  lemma CallingIs(live: Feed, sid: Id)
    ensures forall r :: r in Calling(live, sid) <==> CallsAt(live, r, sid)
  {
    forall r
      ensures r in Calling(live, sid) <==> CallsAt(live, r, sid)
    {
      if CallsAt(live, r, sid) {
        assert Names(live.rows[r], sid);
      }
    }
  }

  lemma SplittableIs(live: Feed, sid: Id, routes: seq<Id>)
    ensures Splittable(live, sid, routes)
       <==> routes != [] && (forall i, j | 0 <= i < j < |routes| :: routes[i] != routes[j])
            && (forall i | 0 <= i < |routes| :: CallsAt(live, routes[i], sid))
            && (exists r :: r in live.rows && CallsAt(live, r, sid) && r !in routes)
  {
    CallingIs(live, sid);
    assert forall r :: CallsAt(live, r, sid) ==> r in live.rows;
    hide CallsAt, Calling;
    if !(Calling(live, sid) <= set r | r in routes) {
      var r :| r in Calling(live, sid) && r !in routes;
      assert CallsAt(live, r, sid) && r in live.rows;
    }
  }

  lemma InUseIs(sys: System, sid: Id)
    ensures !InUse(sys, sid)
       <==> sid !in sys.feed.stops
            && (forall d, i | d in sys.sets && sys.sets[d].status != Discarded && 0 <= i < |sys.sets[d].changes| ::
                  sys.sets[d].changes[i].edit.StopCreate? || sys.sets[d].changes[i].edit.StationCreate?
                  ==> sys.sets[d].changes[i].key != sid)
  {
  }
}
