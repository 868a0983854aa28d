/** What is committed is what was submitted and reviewed, by people other than its
    author unless an admin took that on themselves: over every run of calls. */
module Provenance {
  import opened Records
  import opened Replay
  import opened Drafts
  import opened Cases
  import opened Steps

  // ---- what one call can do to one draft

  predicate SubmitMove(e: Event, id: SetId, was: ChangeSet, now: ChangeSet) {
    e.ESubmit? && e.id == id && was.status == Draft && Rank(e.u.role) >= 1
    && now == was.(status := Submitted, submittedBy := Some(e.u.id), selfApproved := false)
  }

  predicate ApproveMove(e: Event, id: SetId, was: ChangeSet, now: ChangeSet) {
    e.EApprove? && e.id == id && was.status == Submitted
    && (if Some(e.u.id) == was.submittedBy then
          e.u.role == Admin && now == was.(status := Approved, reviewedBy := Some(e.u.id), selfApproved := true)
        else
          Rank(e.u.role) >= 2 && now == was.(status := Approved, reviewedBy := Some(e.u.id)))
  }

  predicate CommitMove(e: Event, id: SetId, was: ChangeSet, now: ChangeSet) {
    e.ECommit? && e.id == id && was.status == Approved && Rank(e.u.role) >= 2
    && (Some(e.u.id) == was.submittedBy ==> e.u.role == Admin && was.selfApproved)
    && now == was.(status := Committed, committedBy := Some(e.u.id), committedVersion := now.committedVersion)
  }

  predicate RejectMove(e: Event, id: SetId, was: ChangeSet, now: ChangeSet) {
    e.EReject? && e.id == id && was.status == Submitted && Rank(e.u.role) >= 2 && Some(e.u.id) != was.submittedBy
    && now == was.(status := Rejected, reviewedBy := Some(e.u.id))
  }

  /** Reopening is for whoever started or submitted the draft, or an admin; it keeps the
      changes and forgets the review. */
  predicate ReopenMove(e: Event, id: SetId, was: ChangeSet, now: ChangeSet) {
    e.EReopen? && e.id == id
    && (was.status == Submitted || was.status == Rejected || was.status == Approved)
    && (e.u.id == was.createdBy || Some(e.u.id) == was.submittedBy || e.u.role == Admin)
    && now == was.(status := Draft, submittedBy := None, reviewedBy := None, selfApproved := false)
  }

  /** Discarding is for whoever started the draft, or an admin. */
  predicate DiscardMove(e: Event, id: SetId, was: ChangeSet, now: ChangeSet) {
    e.EDiscard? && e.id == id && !Ended(was) && (e.u.id == was.createdBy || e.u.role == Admin)
    && now == was.(status := Discarded)
  }

  /** Only a draft's changes are edited, by an editor, and nothing else of it. */
  predicate EditMove(e: Event, was: ChangeSet, now: ChangeSet) {
    !e.ESeal? && Rank(e.u.role) >= 1 && was.status == Draft && now == was.(changes := now.changes)
  }

  /** The draft stays as it is, the version of its commit apart. */
  predicate NoMove(was: ChangeSet, now: ChangeSet) {
    now == was.(committedVersion := now.committedVersion)
  }

  predicate Ended(cs: ChangeSet) {
    cs.status == Committed || cs.status == Discarded
  }

  predicate Moves(e: Event, id: SetId, was: ChangeSet, now: ChangeSet) {
    || NoMove(was, now)
    || SubmitMove(e, id, was, now)
    || ApproveMove(e, id, was, now)
    || RejectMove(e, id, was, now)
    || CommitMove(e, id, was, now)
    || ReopenMove(e, id, was, now)
    || DiscardMove(e, id, was, now)
    || EditMove(e, was, now)
  }

  lemma DraftEditMoves(sys: System, e: Event, id: SetId)
    requires id in sys.sets && Accepted(sys, e)
    requires e.ENewDraft? || e.EAdd? || e.EPut? || e.ERemove? || e.EApproveProposal?
    ensures id in Next(sys, e).sets && Moves(e, id, sys.sets[id], Next(sys, e).sets[id])
  {
    hide Passes, Overtaken, AddProblem, Projected, AfterCommit, SplitList, Splittable, InUse, ProposalFits;
  }

  /** The drafts of before are there as they were, or an editor changed their changes
      while they were drafts. */
  predicate OnlyDraftsChange(u: User, sys: System, now: System) {
    forall id | id in sys.sets ::
      id in now.sets
      && (now.sets[id] == sys.sets[id]
          || (Rank(u.role) >= 1 && sys.sets[id].status == Draft
              && now.sets[id] == sys.sets[id].(changes := now.sets[id].changes)))
  }

  lemma MoveChangesDraft(sys: System, u: User, rid: nat, id: SetId, position: Position)
    requires MoveReview(sys, u, rid, id, position).Done?
    ensures OnlyDraftsChange(u, sys, MoveReview(sys, u, rid, id, position).sys)
  {
    hide StopOpen, MovesReview, Projected, AddProblem;
  }

  lemma MergeChangesDraft(sys: System, u: User, rid: nat, id: SetId, into: Id, keepName: bool)
    requires MergeReview(sys, u, rid, id, into, keepName).Done?
    ensures OnlyDraftsChange(u, sys, MergeReview(sys, u, rid, id, into, keepName).sys)
  {
    hide StopOpen, MergeClash, Projected, AddProblem;
  }

  lemma SplitChangesDraft(sys: System, u: User, rid: nat, id: SetId, routes: seq<Id>, position: Position,
                          name: Option<string>, minted: Id)
    requires SplitReview(sys, u, rid, id, routes, position, name, minted).Done?
    ensures OnlyDraftsChange(u, sys, SplitReview(sys, u, rid, id, routes, position, name, minted).sys)
  {
    hide StopOpen, SplitClash, SplitList, Splittable, InUse, Projected, AddProblem;
  }

  lemma CaseKeepsDrafts(sys: System, u: User, n: nat, note: string)
    ensures ConfirmReview(sys, u, n).Done? ==> ConfirmReview(sys, u, n).sys.sets == sys.sets
    ensures ReopenReview(sys, u, n).Done? ==> ReopenReview(sys, u, n).sys.sets == sys.sets
    ensures RejectProposal(sys, u, n, note).Done? ==> RejectProposal(sys, u, n, note).sys.sets == sys.sets
    ensures ReopenProposal(sys, u, n).Done? ==> ReopenProposal(sys, u, n).sys.sets == sys.sets
  {
  }

  lemma ReviewEventChangesDrafts(sys: System, e: Event)
    requires Accepted(sys, e)
    requires e.EMoveReview? || e.ESplitReview? || e.EMergeReview? || e.EConfirmReview? || e.EReopenReview?
             || e.ERejectProposal? || e.EReopenProposal?
    ensures !e.ESeal? && OnlyDraftsChange(e.u, sys, Next(sys, e))
  {
    hide MoveReview, MergeReview, SplitReview, ConfirmReview, ReopenReview, RejectProposal, ReopenProposal;
    match e {
      case EMoveReview(u, rid, set_, position) => MoveChangesDraft(sys, u, rid, set_, position);
      case EMergeReview(u, rid, set_, into, keepName) => MergeChangesDraft(sys, u, rid, set_, into, keepName);
      case ESplitReview(u, rid, set_, routes, position, name, minted) =>
        SplitChangesDraft(sys, u, rid, set_, routes, position, name, minted);
      case EConfirmReview(u, rid) => CaseKeepsDrafts(sys, u, rid, "");
      case EReopenReview(u, rid) => CaseKeepsDrafts(sys, u, rid, "");
      case ERejectProposal(u, pid, note) => CaseKeepsDrafts(sys, u, pid, note);
      case EReopenProposal(u, pid) => CaseKeepsDrafts(sys, u, pid, "");
    }
  }

  lemma EditIsMove(e: Event, id: SetId, was: ChangeSet, now: ChangeSet)
    requires now == was || EditMove(e, was, now)
    ensures Moves(e, id, was, now)
  {
  }

  lemma ReviewEditMoves(sys: System, e: Event, id: SetId)
    requires id in sys.sets && Accepted(sys, e)
    requires e.EMoveReview? || e.ESplitReview? || e.EMergeReview? || e.EConfirmReview? || e.EReopenReview?
             || e.ERejectProposal? || e.EReopenProposal?
    ensures id in Next(sys, e).sets && Moves(e, id, sys.sets[id], Next(sys, e).sets[id])
  {
    hide Next, Accepted, Moves;
    ReviewEventChangesDrafts(sys, e);
    EditIsMove(e, id, sys.sets[id], Next(sys, e).sets[id]);
  }

  lemma AuthorMoves(sys: System, e: Event, id: SetId)
    requires id in sys.sets && Accepted(sys, e)
    requires e.ESubmit? || e.EReopen? || e.EDiscard?
    ensures id in Next(sys, e).sets && Moves(e, id, sys.sets[id], Next(sys, e).sets[id])
  {
    hide Passes, Overtaken, ReturnedProposals, ReturnedReviews;
  }

  lemma ReviewerMoves(sys: System, e: Event, id: SetId)
    requires id in sys.sets && Accepted(sys, e)
    requires e.EApprove? || e.EReject?
    ensures id in Next(sys, e).sets && Moves(e, id, sys.sets[id], Next(sys, e).sets[id])
  {
  }

  lemma CommitterMoves(sys: System, e: Event, id: SetId)
    requires id in sys.sets && Accepted(sys, e)
    requires e.ECommit? || e.ESeal?
    ensures id in Next(sys, e).sets && Moves(e, id, sys.sets[id], Next(sys, e).sets[id])
  {
    hide Passes, Overtaken, AfterCommit, ReleasedProposals, ReleasedReviews;
  }

  lemma StatusMoves(sys: System, e: Event, id: SetId)
    requires id in sys.sets && Accepted(sys, e)
    requires e.ESubmit? || e.EReopen? || e.EApprove? || e.EReject? || e.ECommit? || e.EDiscard? || e.ESeal?
    ensures id in Next(sys, e).sets && Moves(e, id, sys.sets[id], Next(sys, e).sets[id])
  {
    hide *;
    if e.ESubmit? || e.EReopen? || e.EDiscard? {
      AuthorMoves(sys, e, id);
    } else if e.EApprove? || e.EReject? {
      ReviewerMoves(sys, e, id);
    } else {
      CommitterMoves(sys, e, id);
    }
  }

  lemma StaysIsMove(e: Event, id: SetId, was: ChangeSet)
    ensures Moves(e, id, was, was)
  {
  }

  lemma MovesFreeze(e: Event, id: SetId, was: ChangeSet, now: ChangeSet)
    requires Moves(e, id, was, now) && was.status != Draft
    ensures now.changes == was.changes
  {
  }

  /** One call moves a draft along one edge of its life, or not at all. */
  lemma EveryMove(sys: System, e: Event, id: SetId)
    requires id in sys.sets
    ensures id in Next(sys, e).sets && Moves(e, id, sys.sets[id], Next(sys, e).sets[id])
    ensures sys.sets[id].status != Draft ==> Next(sys, e).sets[id].changes == sys.sets[id].changes
  {
    hide Moves, Step;
    if Accepted(sys, e) {
      if e.ENewDraft? || e.EAdd? || e.EPut? || e.ERemove? || e.EApproveProposal? {
        DraftEditMoves(sys, e, id);
      } else if e.ESubmit? || e.EReopen? || e.EApprove? || e.EReject? || e.ECommit? || e.EDiscard? || e.ESeal? {
        StatusMoves(sys, e, id);
      } else {
        ReviewEditMoves(sys, e, id);
      }
    } else {
      StaysIsMove(e, id, sys.sets[id]);
    }
    if sys.sets[id].status != Draft {
      MovesFreeze(e, id, sys.sets[id], Next(sys, e).sets[id]);
    }
  }

  /** The call that commits a draft publishes its changes. */
  lemma CommitMovePublishes(sys: System, e: Event, id: SetId)
    requires id in sys.sets && id in Next(sys, e).sets
    ensures CommitMove(e, id, sys.sets[id], Next(sys, e).sets[id]) ==>
              Next(sys, e).feed == AfterCommit(sys.feed, sys.sets[id].changes)
  {
    hide Passes, Overtaken, AddProblem, Projected, AfterCommit, SplitList, Splittable, InUse, ProposalFits;
  }

  lemma NoneBornInReview(sys: System, e: Event)
    requires e.EMoveReview? || e.ESplitReview? || e.EMergeReview? || e.EConfirmReview? || e.EReopenReview?
             || e.ERejectProposal? || e.EReopenProposal? || e.EApproveProposal?
    ensures Next(sys, e).sets.Keys <= sys.sets.Keys
  {
    hide StopOpen, MovesReview, MergeClash, SplitClash, Projected, SplitList, Splittable, InUse, ProposalFits;
  }

  lemma NoneBornInStatus(sys: System, e: Event)
    requires e.ESubmit? || e.EReopen? || e.EApprove? || e.EReject? || e.ECommit? || e.EDiscard? || e.ESeal?
    ensures Next(sys, e).sets.Keys <= sys.sets.Keys
  {
    hide Passes, Overtaken, Projected, AfterCommit;
  }

  lemma BornEmpty(sys: System, e: Event, id: SetId)
    requires id !in sys.sets && id in Next(sys, e).sets
    requires e.ENewDraft? || e.EAdd? || e.EPut? || e.ERemove?
    ensures Next(sys, e).sets[id].status == Draft
  {
    hide AddProblem, Projected;
  }

  /** A draft comes into being as a draft. */
  lemma BornDraft(sys: System, e: Event, id: SetId)
    requires id !in sys.sets && id in Next(sys, e).sets
    ensures Next(sys, e).sets[id].status == Draft
  {
    hide *;
    if e.ENewDraft? || e.EAdd? || e.EPut? || e.ERemove? {
      BornEmpty(sys, e, id);
    } else if e.ESubmit? || e.EReopen? || e.EApprove? || e.EReject? || e.ECommit? || e.EDiscard? || e.ESeal? {
      NoneBornInStatus(sys, e);
    } else {
      NoneBornInReview(sys, e);
    }
  }

  // ---- runs

  ghost predicate Matched(states: seq<System>, events: seq<Event>) {
    |states| == |events| + 1
  }

  ghost predicate HasStatus(states: seq<System>, k: nat, id: SetId, status: Status) {
    k < |states| && id in states[k].sets && states[k].sets[id].status == status
  }

  /** At time k the draft is not open for editing, and its changes and submitter are
      those of the last state. */
  ghost predicate Frozen(states: seq<System>, k: nat, id: SetId, last: ChangeSet) {
    && k < |states|
    && id in states[k].sets
    && states[k].sets[id].status != Draft
    && states[k].sets[id].changes == last.changes
    && states[k].sets[id].submittedBy == last.submittedBy
  }

  /** Call a submitted the draft, which has kept its changes and submitter since and
      was never open for editing again. */
  ghost predicate Submission(states: seq<System>, events: seq<Event>, id: SetId, a: nat)
    requires Matched(states, events)
  {
    && a < |events|
    && events[a].ESubmit? && events[a].id == id && HasStatus(states, a, id, Draft)
    && id in states[|events|].sets
    && var last := states[|events|].sets[id];
    && states[a].sets[id].changes == last.changes
    && last.submittedBy == Some(events[a].u.id)
    && forall k | a < k <= |events| :: Frozen(states, k, id, last)
  }

  /** Call b approved the draft: another person, or its submitter as an admin. */
  ghost predicate Approval(states: seq<System>, events: seq<Event>, id: SetId, a: nat, b: nat)
    requires Matched(states, events)
  {
    && Submission(states, events, id, a)
    && a < b < |events|
    && events[b].EApprove? && events[b].id == id
    && HasStatus(states, b, id, Submitted) && HasStatus(states, b + 1, id, Approved)
    && var last := states[|events|].sets[id];
    && last.reviewedBy == Some(events[b].u.id)
    && (last.selfApproved <==> events[b].u.id == events[a].u.id)
    && (if events[b].u.id == events[a].u.id then events[b].u.role == Admin else Rank(events[b].u.role) >= 2)
  }

  /** Call c committed the draft: another person than its submitter, or its submitter
      as an admin who had approved it as an admin. */
  ghost predicate Commitment(states: seq<System>, events: seq<Event>, id: SetId, a: nat, b: nat, c: nat)
    requires Matched(states, events)
  {
    && Approval(states, events, id, a, b)
    && b < c < |events|
    && events[c].ECommit? && events[c].id == id
    && HasStatus(states, c, id, Approved) && HasStatus(states, c + 1, id, Committed)
    && states[c + 1].feed == AfterCommit(states[c].feed, states[|events|].sets[id].changes)
    && Rank(events[c].u.role) >= 2
    && (events[c].u.id == events[a].u.id ==> events[c].u.role == Admin && events[b].u.id == events[a].u.id)
  }

  /** The draft's status has the history it claims. */
  ghost predicate History(states: seq<System>, events: seq<Event>, id: SetId)
    requires Matched(states, events)
  {
    id in states[|events|].sets ==>
      match states[|events|].sets[id].status
      case Submitted =>
        !states[|events|].sets[id].selfApproved && exists a :: Submission(states, events, id, a)
      case Approved => exists a, b :: Approval(states, events, id, a, b)
      case Committed => exists a, b, c :: Commitment(states, events, id, a, b, c)
      case _ => true
  }

  /** The next state holds the draft, unopened, with the same changes and submitter. */
  ghost predicate StaysSubmitted(states: seq<System>, now: System, id: SetId)
    requires states != []
  {
    && id in states[|states| - 1].sets && id in now.sets
    && now.sets[id].changes == states[|states| - 1].sets[id].changes
    && now.sets[id].submittedBy == states[|states| - 1].sets[id].submittedBy
    && now.sets[id].status != Draft
  }

  lemma SubmissionExtends(states: seq<System>, events: seq<Event>, now: System, e: Event, id: SetId, a: nat)
    requires Matched(states, events) && Submission(states, events, id, a) && StaysSubmitted(states, now, id)
    ensures Submission(states + [now], events + [e], id, a)
  {
    var more := states + [now];
    forall k | a < k <= |events| + 1
      ensures Frozen(more, k, id, now.sets[id])
    {
      if k <= |events| {
        assert Frozen(states, k, id, states[|events|].sets[id]);
      }
    }
  }

  lemma SubmissionStarts(states: seq<System>, events: seq<Event>, now: System, e: Event, id: SetId)
    requires Matched(states, events) && id in states[|events|].sets && id in now.sets
    requires SubmitMove(e, id, states[|events|].sets[id], now.sets[id])
    ensures Submission(states + [now], events + [e], id, |events|)
  {
  }

  lemma ApprovalExtends(states: seq<System>, events: seq<Event>, now: System, e: Event, id: SetId, a: nat, b: nat)
    requires Matched(states, events) && Approval(states, events, id, a, b)
    requires Submission(states + [now], events + [e], id, a)
    requires id in now.sets
    requires now.sets[id].reviewedBy == states[|events|].sets[id].reviewedBy
    requires now.sets[id].selfApproved == states[|events|].sets[id].selfApproved
    ensures Approval(states + [now], events + [e], id, a, b)
  {
  }

  lemma ApprovalStarts(states: seq<System>, events: seq<Event>, now: System, e: Event, id: SetId, a: nat)
    requires Matched(states, events) && Submission(states, events, id, a)
    requires Submission(states + [now], events + [e], id, a)
    requires id in now.sets && !states[|events|].sets[id].selfApproved
    requires ApproveMove(e, id, states[|events|].sets[id], now.sets[id])
    ensures Approval(states + [now], events + [e], id, a, |events|)
  {
  }

  lemma CommitmentExtends(states: seq<System>, events: seq<Event>, now: System, e: Event, id: SetId, a: nat, b: nat, c: nat)
    requires Matched(states, events) && Commitment(states, events, id, a, b, c)
    requires Approval(states + [now], events + [e], id, a, b)
    ensures Commitment(states + [now], events + [e], id, a, b, c)
  {
  }

  lemma CommitmentStarts(states: seq<System>, events: seq<Event>, now: System, e: Event, id: SetId, a: nat, b: nat)
    requires Matched(states, events) && Approval(states, events, id, a, b)
    requires Approval(states + [now], events + [e], id, a, b)
    requires id in now.sets && CommitMove(e, id, states[|events|].sets[id], now.sets[id])
    requires now.feed == AfterCommit(states[|events|].feed, states[|events|].sets[id].changes)
    ensures Commitment(states + [now], events + [e], id, a, b, |events|)
  {
  }

  lemma ApprovalHasSubmission(states: seq<System>, events: seq<Event>, id: SetId, a: nat, b: nat)
    requires Matched(states, events) && Approval(states, events, id, a, b)
    ensures Submission(states, events, id, a)
  {
  }

  lemma CommitmentHasApproval(states: seq<System>, events: seq<Event>, id: SetId, a: nat, b: nat, c: nat)
    requires Matched(states, events) && Commitment(states, events, id, a, b, c)
    ensures Approval(states, events, id, a, b)
  {
  }

  lemma HistoryOfSubmitted(states: seq<System>, events: seq<Event>, now: System, e: Event, id: SetId)
    requires Matched(states, events) && History(states, events, id)
    requires id in states[|events|].sets && id in now.sets
    requires Moves(e, id, states[|events|].sets[id], now.sets[id])
    requires states[|events|].sets[id].status == Submitted
    requires now.sets[id].status != Draft && now.sets[id].status != Discarded
    ensures History(states + [now], events + [e], id)
  {
    hide Submission, Approval, Commitment;
    var a :| Submission(states, events, id, a);
    SubmissionExtends(states, events, now, e, id, a);
    if ApproveMove(e, id, states[|events|].sets[id], now.sets[id]) {
      ApprovalStarts(states, events, now, e, id, a);
    }
  }

  lemma HistoryOfApproved(states: seq<System>, events: seq<Event>, now: System, e: Event, id: SetId)
    requires Matched(states, events) && History(states, events, id)
    requires id in states[|events|].sets && id in now.sets
    requires Moves(e, id, states[|events|].sets[id], now.sets[id])
    requires CommitMove(e, id, states[|events|].sets[id], now.sets[id]) ==>
               now.feed == AfterCommit(states[|events|].feed, states[|events|].sets[id].changes)
    requires states[|events|].sets[id].status == Approved
    requires now.sets[id].status != Draft && now.sets[id].status != Discarded
    ensures History(states + [now], events + [e], id)
  {
    hide Submission, Approval, Commitment, AfterCommit;
    var a, b :| Approval(states, events, id, a, b);
    ApprovalHasSubmission(states, events, id, a, b);
    SubmissionExtends(states, events, now, e, id, a);
    ApprovalExtends(states, events, now, e, id, a, b);
    if CommitMove(e, id, states[|events|].sets[id], now.sets[id]) {
      CommitmentStarts(states, events, now, e, id, a, b);
    }
  }

  lemma HistoryOfCommitted(states: seq<System>, events: seq<Event>, now: System, e: Event, id: SetId)
    requires Matched(states, events) && History(states, events, id)
    requires id in states[|events|].sets && id in now.sets
    requires Moves(e, id, states[|events|].sets[id], now.sets[id])
    requires states[|events|].sets[id].status == Committed
    ensures History(states + [now], events + [e], id)
  {
    hide Submission, Approval, Commitment;
    var a, b, c :| Commitment(states, events, id, a, b, c);
    CommitmentHasApproval(states, events, id, a, b, c);
    ApprovalHasSubmission(states, events, id, a, b);
    SubmissionExtends(states, events, now, e, id, a);
    ApprovalExtends(states, events, now, e, id, a, b);
    CommitmentExtends(states, events, now, e, id, a, b, c);
  }

  /** A move along an edge of the draft's life keeps its history. */
  lemma HistoryStep(states: seq<System>, events: seq<Event>, now: System, e: Event, id: SetId)
    requires Matched(states, events) && History(states, events, id)
    requires id in states[|events|].sets && id in now.sets
    requires Moves(e, id, states[|events|].sets[id], now.sets[id])
    requires CommitMove(e, id, states[|events|].sets[id], now.sets[id]) ==>
               now.feed == AfterCommit(states[|events|].feed, states[|events|].sets[id].changes)
    ensures History(states + [now], events + [e], id)
  {
    hide Submission, Approval, Commitment;
    var was, cs := states[|events|].sets[id], now.sets[id];
    if SubmitMove(e, id, was, cs) {
      SubmissionStarts(states, events, now, e, id);
    } else if was.status == Submitted && cs.status != Draft && cs.status != Discarded {
      HistoryOfSubmitted(states, events, now, e, id);
    } else if was.status == Approved && cs.status != Draft && cs.status != Discarded {
      HistoryOfApproved(states, events, now, e, id);
    } else if was.status == Committed {
      HistoryOfCommitted(states, events, now, e, id);
    }
  }

  /** Over every run from a state that does not hold the draft yet, its status has
      the history it claims. */
  lemma {:induction false} EveryStatusHasItsHistory(init: System, events: seq<Event>, id: SetId)
    requires id !in init.sets
    ensures History(Trace(init, events), events, id)
  {
    if events != [] {
      var front, e := events[..|events| - 1], events[|events| - 1];
      EveryStatusHasItsHistory(init, front, id);
      assert events == front + [e];
      TraceLast(init, front, e);
      var s := Run(init, front);
      if id in s.sets {
        EveryMove(s, e, id);
        CommitMovePublishes(s, e, id);
        HistoryStep(Trace(init, front), front, Next(s, e), e, id);
      } else if id in Next(s, e).sets {
        BornDraft(s, e, id);
      }
    }
  }

  /** A committed draft was submitted, then approved, then committed, with one change
      list throughout, by three calls that keep author, reviewer and committer apart
      unless an admin approved their own. */
  lemma CommittedWasReviewed(init: System, events: seq<Event>, id: SetId)
    requires id !in init.sets && id in Run(init, events).sets && Run(init, events).sets[id].status == Committed
    ensures exists a, b, c :: Commitment(Trace(init, events), events, id, a, b, c)
  {
    EveryStatusHasItsHistory(init, events, id);
  }

  /** Committed and discarded are terminal: the draft and its changes stay. */
  lemma {:induction false} EndedStays(init: System, events: seq<Event>, id: SetId)
    requires id in init.sets && Ended(init.sets[id])
    ensures id in Run(init, events).sets
    ensures Run(init, events).sets[id].status == init.sets[id].status
    ensures Run(init, events).sets[id].changes == init.sets[id].changes
  {
    if events != [] {
      var front := events[..|events| - 1];
      EndedStays(init, front, id);
      EveryMove(Run(init, front), events[|events| - 1], id);
    }
  }
}
