/** The editor as it runs: one object over the store, its calls changing its tables
    in place. Each call is proved to do what the state machine says. */
module Editing {
  import opened Records
  import opened Replay
  import opened Tables
  import opened Storage
  import opened Findings
  import opened RowRules
  import opened Texts
  import opened Validation
  import opened Conflicts
  import opened Checking
  import opened Drafts
  import opened Cases
  import opened Steps
  import opened Batches
  import CallIndex

  /** The call did what the state machine answers, or was refused for its reason. */
  ghost predicate Does(o: Outcome, was: System, now: System, why: Option<Refusal>) {
    match o
    case Done(s) => why.None? && now == s
    case Refused(w) => why == Some(w) && now == was
  }

  class EditorApi {
    const store: Store
    var version: int
    var sets: map<SetId, ChangeSet>
    var proposals: map<nat, Proposal>
    var reviews: map<nat, Review>
    var nextChange: nat

    function State(): System
      reads this, store
    {
      System(store.Tables(), version, sets, proposals, reviews, nextChange)
    }

    ghost predicate Valid()
      reads this, store
    {
      store.Valid()
    }

    constructor (feed: Feed, version: int, proposals: map<nat, Proposal>, reviews: map<nat, Review>)
      ensures Valid() && fresh(store)
      ensures State() == System(feed, version, map[], proposals, reviews, 1)
    {
      store := new Store(feed);
      this.version := version;
      sets := map[];
      this.proposals := proposals;
      this.reviews := reviews;
      nextChange := 1;
    }

    // ---- editing a draft

    method AppendChange(id: SetId, key: Id, edit: Edit, base: Option<int>, review: Option<nat>) returns (cid: nat)
      requires id in sets
      modifies this`sets, this`nextChange
      ensures State() == Appended(old(State()), id, key, edit, base, review)
      ensures cid == old(nextChange)
    {
      cid := nextChange;
      nextChange := nextChange + 1;
      var cs := sets[id];
      sets := sets[id := cs.(changes := cs.changes + [Change(cid, key, edit, base, review)])];
    }

    method RequireDraft(u: User, id: SetId) returns (why: Option<Refusal>)
      ensures why == EditProblem(State(), u, id)
    {
      if id !in sets {
        return Some(UnknownChangeSet);
      }
      if Rank(u.role) < 1 {
        return Some(Forbidden);
      }
      why := if sets[id].status != Draft then Some(NotDraft) else None;
    }

    method AddTo(u: User, id: SetId, key: Id, edit: Edit, base: Option<int>, review: Option<nat>) returns (why: Option<Refusal>)
      modifies this`sets, this`nextChange
      ensures Does(AddChange(old(State()), u, id, key, edit, base, review), old(State()), State(), why)
    {
      hide AddProblem, Appended, Recorded, LiveVersion;
      why := RequireDraft(u, id);
      if why.Some? {
        return;
      }
      var live := store.Tables();
      why := AddProblem(live, sets[id].changes, key, edit, review);
      if why.None? {
        var cid := AppendChange(id, key, Recorded(live, edit), if Truthy(base) then base else LiveVersion(live, key, edit), review);
      }
    }

    /** A change of the draft takes a new payload in place. */
    method PutIn(u: User, id: SetId, cid: nat, edit: Edit, base: Option<int>, review: Option<nat>) returns (why: Option<Refusal>)
      modifies this`sets
      ensures Does(PutChange(old(State()), u, id, cid, edit, base, review), old(State()), State(), why)
    {
      hide SameKind;
      why := RequireDraft(u, id);
      if why.Some? {
        return;
      }
      var cs := sets[id];
      var i := IndexOf(cs.changes, cid);
      if i == |cs.changes| {
        return Some(UnknownChange);
      }
      var ch := cs.changes[i];
      if !SameKind(ch.edit, edit) || (IsMerge(edit) && edit.into == ch.key) || (IsDelete(edit) && review.Some?)
         || (ch.review.Some? && review.Some? && review != ch.review) {
        return Some(BadChange);
      }
      ch := ch.(edit := edit, base := if Truthy(base) then base else ch.base,
                review := if ch.review.Some? then ch.review else review);
      sets := sets[id := cs.(changes := cs.changes[i := ch])];
    }

    /** Takes a change out of the draft, with what its cases make of that. */
    method TakeOut(u: User, id: SetId, cid: nat) returns (why: Option<Refusal>)
      modifies this`sets, this`proposals, this`reviews
      ensures Does(RemoveChange(old(State()), u, id, cid), old(State()), State(), why)
    {
      hide AfterRemoval;
      why := RequireDraft(u, id);
      if why.Some? {
        return;
      }
      var cs := sets[id];
      var i := IndexOf(cs.changes, cid);
      if i == |cs.changes| {
        return Some(UnknownChange);
      }
      sets := sets[id := cs.(changes := RemoveAt(cs.changes, i))];
      ReturnProposals(id, Some(cid));
      ReviewChangeRemoved(id, cs.changes[i]);
    }

    /** Proposals whose change left the draft, or whose draft went, wait again. */
    method ReturnProposals(id: SetId, cid: Option<nat>)
      modifies this`proposals
      ensures proposals == if cid.Some? then ReturnedProposalOf(old(proposals), id, cid.value)
                           else ReturnedProposals(old(proposals), id)
    {
      ghost var was := proposals;
      ghost var writes := if cid.Some? then ReturnedProposalOf(was, id, cid.value) else ReturnedProposals(was, id);
      var todo := proposals.Keys;
      while todo != {}
        invariant PartlyWritten(was, proposals, writes, todo)
      {
        var p :| p in todo;
        OneMoreWritten(was, proposals, writes, todo, p);
        var link := proposals[p].link;
        if CarriedBy(link, id) && (cid.None? || link.change == cid) {
          proposals := proposals[p := proposals[p].(link := WAITING)];
        } else {
          assert proposals[p := writes[p]] == proposals;
        }
        todo := todo - {p};
      }
      AllWritten(was, proposals, writes);
      assert was + writes == writes;
    }

    method ReturnReviews(id: SetId)
      modifies this`reviews
      ensures reviews == ReturnedReviews(old(reviews), id)
    {
      ghost var was := reviews;
      ghost var writes := ReturnedReviews(was, id);
      var todo := reviews.Keys;
      while todo != {}
        invariant PartlyWritten(was, reviews, writes, todo)
      {
        var r :| r in todo;
        OneMoreWritten(was, reviews, writes, todo, r);
        reviews := reviews[r := reviews[r].(link := if CarriedBy(reviews[r].link, id) then WAITING else reviews[r].link)];
        todo := todo - {r};
      }
      AllWritten(was, reviews, writes);
      assert was + writes == writes;
    }

    method ReviewChangeRemoved(id: SetId, ch: Change)
      requires id in sets
      modifies this`sets, this`reviews
      ensures State() == AfterRemoval(old(State()), id, ch)
    {
      if ch.review.None? || ch.review.value !in reviews || !CarriedBy(reviews[ch.review.value].link, id) {
        return;
      }
      var r := ch.review.value;
      if ch.edit.StopCreate? {
        TakeListsAlong(id, r, ch.key);
      } else {
        assert sets[id := sets[id].(changes := sets[id].changes)] == sets;
      }
      var last := LastOf(sets[id].changes, r);
      reviews := reviews[r := reviews[r].(link := if last.Some? then reviews[r].link.(change := last) else WAITING)];
    }

    /** The stop lists of a split go with the stop it created. */
    method TakeListsAlong(id: SetId, r: nat, created: Id)
      requires id in sets
      modifies this`sets
      ensures sets == old(sets)[id := old(sets)[id].(changes := Keeping(old(sets)[id].changes, r, created))]
    {
      var changes := sets[id].changes;
      var left := [];
      for i := 0 to |changes|
        invariant sets == old(sets)
        invariant left == Keeping(changes[..i], r, created)
      {
        assert changes[..i + 1][..i] == changes[..i];
        if !GoesWith(changes[i], r, created) {
          left := left + [changes[i]];
        }
      }
      assert changes[..|changes|] == changes;
      sets := sets[id := sets[id].(changes := left)];
    }

    // ---- the life of a draft

    method Check(changes: seq<Change>) returns (clean: bool)
      requires Valid()
      ensures clean == Passes(State(), changes)
    {
      var found := ValidateSet(store, changes, ReviewStops(reviews));
      clean := Clean(found);
    }

    method SubmitSet(u: User, id: SetId) returns (why: Option<Refusal>)
      requires Valid()
      modifies this`sets
      ensures Does(Submit(old(State()), u, id), old(State()), State(), why)
    {
      hide Passes, SetConflicts;
      if id !in sets {
        return Some(UnknownChangeSet);
      }
      var cs := sets[id];
      if Rank(u.role) < 1 {
        return Some(Forbidden);
      }
      if cs.status != Draft {
        return Some(BadStatus);
      }
      if cs.changes == [] {
        return Some(EmptyChangeSet);
      }
      var clean := Check(cs.changes);
      if !clean {
        return Some(ValidationFailed);
      }
      var conflicts := ConflictsFor(store, cs.changes);
      if conflicts != [] {
        return Some(ChangeSetConflicts);
      }
      sets := sets[id := cs.(status := Submitted, submittedBy := Some(u.id), selfApproved := false)];
      return None;
    }

    method ReopenSet(u: User, id: SetId) returns (why: Option<Refusal>)
      modifies this`sets
      ensures Does(Reopen(old(State()), u, id), old(State()), State(), why)
    {
      if id !in sets {
        return Some(UnknownChangeSet);
      }
      var cs := sets[id];
      if cs.status != Submitted && cs.status != Rejected && cs.status != Approved {
        return Some(BadStatus);
      }
      if u.id != cs.createdBy && Some(u.id) != cs.submittedBy && u.role != Admin {
        return Some(NotAuthor);
      }
      sets := sets[id := cs.(status := Draft, submittedBy := None, reviewedBy := None, selfApproved := false)];
      return None;
    }

    /** Approving one's own draft is an admin's, and marks it. */
    method ApproveSet(u: User, id: SetId, selfApprove: bool) returns (why: Option<Refusal>)
      modifies this`sets
      ensures Does(Approve(old(State()), u, id, selfApprove), old(State()), State(), why)
    {
      if id !in sets {
        return Some(UnknownChangeSet);
      }
      var cs := sets[id];
      var own := Some(u.id) == cs.submittedBy;
      if own && u.role == Admin && selfApprove && cs.status == Submitted {
        sets := sets[id := cs.(status := Approved, reviewedBy := Some(u.id), selfApproved := true)];
        return None;
      }
      if Rank(u.role) < 2 {
        return Some(Forbidden);
      }
      if cs.status != Submitted {
        return Some(BadStatus);
      }
      if own {
        return Some(OwnChangeSet);
      }
      sets := sets[id := cs.(status := Approved, reviewedBy := Some(u.id))];
      return None;
    }

    method RejectSet(u: User, id: SetId, comment: string) returns (why: Option<Refusal>)
      modifies this`sets
      ensures Does(Reject(old(State()), u, id, comment), old(State()), State(), why)
    {
      if id !in sets {
        return Some(UnknownChangeSet);
      }
      var cs := sets[id];
      if Rank(u.role) < 2 {
        return Some(Forbidden);
      }
      if cs.status != Submitted {
        return Some(BadStatus);
      }
      if Some(u.id) == cs.submittedBy {
        return Some(OwnChangeSet);
      }
      if Blank(comment) {
        return Some(CommentRequired);
      }
      sets := sets[id := cs.(status := Rejected, reviewedBy := Some(u.id))];
      return None;
    }

    method DiscardSet(u: User, id: SetId) returns (why: Option<Refusal>)
      modifies this`sets, this`proposals, this`reviews
      ensures Does(Discard(old(State()), u, id), old(State()), State(), why)
    {
      hide ReturnedProposals, ReturnedReviews;
      if id !in sets {
        return Some(UnknownChangeSet);
      }
      var cs := sets[id];
      if cs.status == Committed || cs.status == Discarded {
        return Some(BadStatus);
      }
      if u.id != cs.createdBy && u.role != Admin {
        return Some(NotAuthor);
      }
      sets := sets[id := cs.(status := Discarded)];
      ReturnProposals(id, None);
      ReturnReviews(id);
      return None;
    }

    method CommitGate(u: User, id: SetId) returns (why: Option<Refusal>)
      requires Valid()
      ensures why == CommitProblem(State(), u, id)
    {
      hide Passes, SetConflicts;
      if id !in sets {
        return Some(UnknownChangeSet);
      }
      var cs := sets[id];
      var own := Some(u.id) == cs.submittedBy;
      if Rank(u.role) < 2 {
        return Some(Forbidden);
      }
      if cs.status != Approved {
        return Some(BadStatus);
      }
      if own && !(u.role == Admin && cs.selfApproved) {
        return Some(OwnChangeSet);
      }
      var conflicts := ConflictsFor(store, cs.changes);
      if conflicts != [] {
        return Some(ChangeSetConflicts);
      }
      var clean := Check(cs.changes);
      why := if clean then None else Some(ValidationFailed);
    }

    method CommitSet(u: User, id: SetId) returns (why: Option<Refusal>)
      requires Valid()
      modifies this, store
      ensures Valid()
      ensures Does(Commit(old(State()), u, id), old(State()), State(), why)
    {
      hide CommitProblem, AfterCommit, ReleasedProposals, ReleasedReviews;
      why := CommitGate(u, id);
      if why.Some? {
        return;
      }
      KnownSet(State(), u, id);
      var cs := sets[id];
      store.ApplyCommit(cs.changes);
      version := version + 1;
      sets := sets[id := cs.(status := Committed, committedBy := Some(u.id), committedVersion := Some(version))];
      SettleProposals(id);
      SettleReviews(id);
    }

    method SettleProposals(id: SetId)
      modifies this`proposals
      ensures proposals == ReleasedProposals(old(proposals), id)
    {
      ghost var was := proposals;
      ghost var writes := ReleasedProposals(was, id);
      var todo := proposals.Keys;
      while todo != {}
        invariant PartlyWritten(was, proposals, writes, todo)
      {
        var p :| p in todo;
        OneMoreWritten(was, proposals, writes, todo, p);
        var link := proposals[p].link;
        proposals := proposals[p := proposals[p].(link := if CarriedBy(link, id) then link.(status := CaseCommitted) else link)];
        todo := todo - {p};
      }
      AllWritten(was, proposals, writes);
      assert was + writes == writes;
    }

    method SettleReviews(id: SetId)
      modifies this`reviews
      ensures reviews == ReleasedReviews(old(reviews), id)
    {
      ghost var was := reviews;
      ghost var writes := ReleasedReviews(was, id);
      var todo := reviews.Keys;
      while todo != {}
        invariant PartlyWritten(was, reviews, writes, todo)
      {
        var r :| r in todo;
        OneMoreWritten(was, reviews, writes, todo, r);
        var link := reviews[r].link;
        reviews := reviews[r := reviews[r].(link := if CarriedBy(link, id) then link.(status := CaseCommitted) else link)];
        todo := todo - {r};
      }
      AllWritten(was, reviews, writes);
      assert was + writes == writes;
    }

    // ---- several drafts in one call

    /** One draft of a batch: approved first if the batch approves, then committed. */
    method CommitOne(u: User, id: SetId, approve: bool) returns (committed: bool)
      requires Valid()
      modifies this, store
      ensures Valid()
      ensures State() == AfterCalls(old(State()), u, id, approve)
      ensures committed == CommittedBy(old(State()), u, id, approve)
    {
      hide Drafts.Approve, Drafts.Commit;
      OneDraftRuns(State(), u, id, approve);
      if approve {
        var why := ApproveSet(u, id, false);
        if why.Some? {
          return false;
        }
      }
      var why := CommitSet(u, id);
      committed := why.None?;
    }

    method CommitBatch(u: User, ids: seq<SetId>, approve: bool) returns (why: Option<Refusal>)
      requires Valid()
      modifies this, store
      ensures Valid()
      ensures Does(CommitMany(old(State()), u, ids, approve), old(State()), State(), why)
    {
      hide AfterCalls, CommittedBy;
      if Rank(u.role) < 2 {
        return Some(Forbidden);
      }
      if ids == [] {
        return Some(BadChange);
      }
      var before := version;
      ghost var was := State();
      var each := Distinct(ids);
      var done := [];
      for i := 0 to |each|
        invariant Valid()
        invariant Each(was, u, each[..i], approve) == Progress(State(), done)
      {
        assert each[..i + 1][..i] == each[..i];
        var committed := CommitOne(u, each[i], approve);
        if committed {
          done := done + [each[i]];
        }
      }
      assert each[..|each|] == each;
      if done != [] {
        version := before + 1;
        sets := SealedSets(sets, done, before + 1);
      }
      return None;
    }

    // ---- station proposals

    /** A proposal approved into a draft is the creation of its station there. */
    method ApproveInto(u: User, pid: nat, id: SetId, name: string, position: Position, members: Option<seq<Member>>)
      returns (why: Option<Refusal>)
      requires Valid()
      modifies this`sets, this`proposals, this`nextChange
      ensures Does(ApproveProposal(old(State()), u, pid, id, name, position, members), old(State()), State(), why)
    {
      hide ProposalFits, Chosen, MembersOf, CallIndex.Indexed, Over, Replayed;
      if pid !in proposals {
        return Some(UnknownCase);
      }
      why := RequireDraft(u, id);
      if why.Some? {
        return;
      }
      var p := proposals[pid];
      if p.link.status != CasePending {
        return Some(CaseNotOpen);
      }
      if members.Some? && !Chosen(p, members.value) {
        return Some(BadChange);
      }
      var chosen := if members.Some? then members.value else p.members;
      var proj := new Projection(store, sets[id].changes);
      if !ProposalFits(proj.View(), p, name, chosen) {
        return Some(CaseHasProblems);
      }
      var cid := AppendChange(id, p.station, StationCreate(Stripped(name), position, Some(MembersOf(chosen))), None, None);
      proposals := proposals[pid := p.(link := Link(CaseApproved, Some(id), Some(cid)))];
    }

    // ---- coordinate reviews

    /** Moves the reviewed stop: an update of its point in the draft. */
    method Move(u: User, rid: nat, id: SetId, position: Position) returns (why: Option<Refusal>)
      requires Valid()
      modifies this`sets, this`reviews, this`nextChange
      ensures Does(MoveReview(old(State()), u, rid, id, position), old(State()), State(), why)
    {
      hide MovesReview, ActionProblem, CallIndex.Indexed, Over, Replayed;
      if rid !in reviews {
        return Some(UnknownCase);
      }
      why := ActionProblem(State(), u, rid, id);
      if why.Some? {
        return;
      }
      ActionNeedsDraft(State(), u, rid, id);
      var sid := reviews[rid].stop;
      if MovesReview(sets[id].changes, rid) {
        return Some(DraftConflict);
      }
      var proj := new Projection(store, sets[id].changes);
      if !StopOpen(store.Tables(), proj.View(), sid) {
        return Some(CaseHasProblems);
      }
      var st := store.stops[sid];
      if st.position == position {
        return Some(BadChange);
      }
      var cid := AppendChange(id, sid, StopUpdate(None, Some(position), None), Some(st.version), Some(rid));
      reviews := reviews[rid := reviews[rid].(link := Link(CaseApproved, Some(id), Some(cid)))];
    }

    /** Merges the reviewed stop into another. */
    method Merge(u: User, rid: nat, id: SetId, into: Id, keepName: bool) returns (why: Option<Refusal>)
      requires Valid()
      modifies this`sets, this`reviews, this`nextChange
      ensures Does(MergeReview(old(State()), u, rid, id, into, keepName), old(State()), State(), why)
    {
      hide MergeClash, ActionProblem, CallIndex.Indexed, Over, Replayed;
      if rid !in reviews {
        return Some(UnknownCase);
      }
      why := ActionProblem(State(), u, rid, id);
      if why.Some? {
        return;
      }
      ActionNeedsDraft(State(), u, rid, id);
      var sid := reviews[rid].stop;
      if MergeClash(sets[id].changes, rid, sid, into) {
        return Some(DraftConflict);
      }
      var proj := new Projection(store, sets[id].changes);
      if !StopOpen(store.Tables(), proj.View(), sid) {
        return Some(CaseHasProblems);
      }
      if into == sid || into !in store.stops || store.stops[into].deleted || store.stops[into].locationType == 1 {
        return Some(CaseHasProblems);
      }
      var edit := StopMerge(into, Keep(keepName, false), Some(store.stops[into].version));
      var cid := AppendChange(id, sid, edit, Some(store.stops[sid].version), Some(rid));
      reviews := reviews[rid := reviews[rid].(link := Link(CaseApproved, Some(id), Some(cid)))];
    }

    /** Splits routes off the reviewed stop: the new stop, then a stop list per route. */
    method Split(u: User, rid: nat, id: SetId, routes: seq<Id>, position: Position, name: Option<string>, minted: Id)
      returns (why: Option<Refusal>)
      modifies this`sets, this`reviews, this`nextChange
      ensures Does(SplitReview(old(State()), u, rid, id, routes, position, name, minted), old(State()), State(), why)
    {
      hide Splittable, SplitClash, StopOpen, InUse, ActionProblem, SplitChanges, SplitList, Blank;
      if rid !in reviews {
        return Some(UnknownCase);
      }
      why := ActionProblem(State(), u, rid, id);
      if why.Some? {
        return;
      }
      ActionNeedsDraft(State(), u, rid, id);
      var sid := reviews[rid].stop;
      var live := store.Tables();
      if SplitClash(sets[id].changes, sid, routes) {
        return Some(DraftConflict);
      }
      if !StopOpen(live, live, sid) || !Splittable(live, sid, routes) {
        return Some(CaseHasProblems);
      }
      if InUse(State(), minted) {
        return Some(IdInUse);
      }
      OpenStopIsLive(live, sid);
      var called := if name.Some? && !Blank(name.value) then Stripped(name.value) else store.stops[sid].name;
      ghost var was := State();
      var first := nextChange;
      var create := AppendChange(id, minted, StopCreate(called, position, None), None, Some(rid));
      MoveRoutes(id, rid, sid, minted, routes);
      SplitListFollows(was, was.sets[id].changes, rid, routes, position, called, minted);
      SplitCount(live, sid, minted, routes, rid, first + 1);
      reviews := reviews[rid := reviews[rid].(link := Link(CaseApproved, Some(id), Some(first)))];
    }

    method MoveRoutes(id: SetId, rid: nat, sid: Id, minted: Id, routes: seq<Id>)
      requires id in sets
      modifies this`sets, this`nextChange
      ensures nextChange == old(nextChange) + |routes|
      ensures var cs := old(sets)[id];
              sets == old(sets)[id := cs.(changes := cs.changes
                + SplitChanges(old(store.Tables()), sid, minted, routes, rid, old(nextChange)))]
    {
      var live := store.Tables();
      ghost var cs, first := sets[id], nextChange;
      assert cs.changes + SplitChanges(live, sid, minted, routes[..0], rid, first) == cs.changes;
      assert cs.(changes := cs.changes) == cs;
      for i := 0 to |routes|
        invariant nextChange == first + i && id in sets
        invariant sets == old(sets)[id := cs.(changes := cs.changes + SplitChanges(live, sid, minted, routes[..i], rid, first))]
      {
        var rows := RowsOf(live.rows, routes[i]);
        var cid := AppendChange(id, routes[i], RowsReplace(Renamed(rows, sid, minted), Some(rows)), None, Some(rid));
        assert routes[..i + 1][..i] == routes[..i] && routes[..i + 1][i] == routes[i];
        assert SplitChanges(live, sid, minted, routes[..i + 1], rid, first)
            == SplitChanges(live, sid, minted, routes[..i], rid, first)
               + [Change(cid, routes[i], RowsReplace(Renamed(rows, sid, minted), Some(rows)), None, Some(rid))];
        assert sets[id].changes == cs.changes + SplitChanges(live, sid, minted, routes[..i + 1], rid, first);
      }
      assert routes[..|routes|] == routes;
    }
  }

  lemma KnownSet(sys: System, u: User, id: SetId)
    requires CommitProblem(sys, u, id).None?
    ensures id in sys.sets
  {
  }

  lemma OneDraftRuns(sys: System, u: User, id: SetId, approve: bool)
    ensures AfterCalls(sys, u, id, approve)
         == (if approve && !Accepted(sys, EApprove(u, id, false)) then sys
             else Next(if approve then Next(sys, EApprove(u, id, false)) else sys, ECommit(u, id)))
  {
    hide Next, Accepted;
    var e, c := EApprove(u, id, false), ECommit(u, id);
    RunLast(sys, [], c);
    assert [] + [c] == [c];
    RunLast(sys, [], e);
    assert [] + [e] == [e];
    RunLast(sys, [e], c);
    assert [e] + [c] == [e, c];
  }

  lemma ActionNeedsDraft(sys: System, u: User, rid: nat, id: SetId)
    requires rid in sys.reviews && ActionProblem(sys, u, rid, id).None?
    ensures id in sys.sets
  {
  }

  lemma OpenStopIsLive(live: Feed, sid: Id)
    requires StopOpen(live, live, sid)
    ensures sid in live.stops
  {
  }

  lemma SplitListFollows(sys: System, was: seq<Change>, rid: nat, routes: seq<Id>, position: Position, called: string, minted: Id)
    requires rid in sys.reviews
    ensures var create := Change(sys.nextChange, minted, StopCreate(called, position, None), None, Some(rid));
            var lists := SplitChanges(sys.feed, sys.reviews[rid].stop, minted, routes, rid, sys.nextChange + 1);
            && was + [create] + lists == was + SplitList(sys, rid, routes, position, called, minted)
            && |SplitList(sys, rid, routes, position, called, minted)| == 1 + |lists|
  {
    hide SplitChanges;
  }

  lemma {:induction false} SplitCount(live: Feed, sid: Id, minted: Id, routes: seq<Id>, rid: nat, next: nat)
    ensures |SplitChanges(live, sid, minted, routes, rid, next)| == |routes|
  {
    if routes != [] {
      SplitCount(live, sid, minted, routes[..|routes| - 1], rid, next);
    }
  }
}
