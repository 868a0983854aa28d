/** The editor as a state machine. Every call runs under one lock, so a run is a
    list of calls, each accepted or refused as a whole. */
module Steps {
  import opened Records
  import opened Replay
  import opened Drafts
  import opened Cases

  datatype Event =
    | ENewDraft(u: User, id: SetId)
    | EAdd(u: User, id: SetId, key: Id, edit: Edit, base: Option<int>, review: Option<nat>)
    | EPut(u: User, id: SetId, cid: nat, edit: Edit, base: Option<int>, review: Option<nat>)
    | ERemove(u: User, id: SetId, cid: nat)
    | ESubmit(u: User, id: SetId)
    | EReopen(u: User, id: SetId)
    | EApprove(u: User, id: SetId, selfApprove: bool)
    | EReject(u: User, id: SetId, comment: string)
    | ECommit(u: User, id: SetId)
    | EDiscard(u: User, id: SetId)
    | ESeal(ids: seq<SetId>, version: int)
    | EApproveProposal(u: User, pid: nat, id: SetId, name: string, position: Position, members: Option<seq<Member>>)
    | ERejectProposal(u: User, pid: nat, note: string)
    | EReopenProposal(u: User, pid: nat)
    | EMoveReview(u: User, rid: nat, id: SetId, position: Position)
    | ESplitReview(u: User, rid: nat, id: SetId, routes: seq<Id>, position: Position, newName: Option<string>, minted: Id)
    | EMergeReview(u: User, rid: nat, id: SetId, into: Id, keepName: bool)
    | EConfirmReview(u: User, rid: nat)
    | EReopenReview(u: User, rid: nat)

  /** One version for a whole batch: the drafts it committed all carry it. */
  function Sealed(sys: System, ids: seq<SetId>, version: int): System {
    sys.(version := version, sets := SealedSets(sys.sets, ids, version))
  }

  function SealedSets(sets: map<SetId, ChangeSet>, ids: seq<SetId>, version: int): map<SetId, ChangeSet> {
    map id | id in sets ::
      if id in ids && sets[id].status == Committed then sets[id].(committedVersion := Some(version)) else sets[id]
  }

  function Step(sys: System, e: Event): Outcome {
    match e
    case ENewDraft(u, id) => NewDraft(sys, u, id)
    case EAdd(u, id, key, edit, base, review) => AddChange(sys, u, id, key, edit, base, review)
    case EPut(u, id, cid, edit, base, review) => PutChange(sys, u, id, cid, edit, base, review)
    case ERemove(u, id, cid) => RemoveChange(sys, u, id, cid)
    case ESubmit(u, id) => Submit(sys, u, id)
    case EReopen(u, id) => Reopen(sys, u, id)
    case EApprove(u, id, selfApprove) => Approve(sys, u, id, selfApprove)
    case EReject(u, id, comment) => Reject(sys, u, id, comment)
    case ECommit(u, id) => Commit(sys, u, id)
    case EDiscard(u, id) => Discard(sys, u, id)
    case ESeal(ids, version) => Done(Sealed(sys, ids, version))
    case EApproveProposal(u, pid, id, name, position, members) => ApproveProposal(sys, u, pid, id, name, position, members)
    case ERejectProposal(u, pid, note) => RejectProposal(sys, u, pid, note)
    case EReopenProposal(u, pid) => ReopenProposal(sys, u, pid)
    case EMoveReview(u, rid, id, position) => MoveReview(sys, u, rid, id, position)
    case ESplitReview(u, rid, id, routes, position, name, minted) => SplitReview(sys, u, rid, id, routes, position, name, minted)
    case EMergeReview(u, rid, id, into, keepName) => MergeReview(sys, u, rid, id, into, keepName)
    case EConfirmReview(u, rid) => ConfirmReview(sys, u, rid)
    case EReopenReview(u, rid) => ReopenReview(sys, u, rid)
  }

  /** A refused call changes nothing. */
  function Next(sys: System, e: Event): System {
    var o := Step(sys, e);
    if o.Done? then o.sys else sys
  }

  predicate Accepted(sys: System, e: Event) {
    Step(sys, e).Done?
  }

  function Run(init: System, events: seq<Event>): System {
    if events == [] then init else Next(Run(init, events[..|events| - 1]), events[|events| - 1])
  }

  lemma RunLast(init: System, events: seq<Event>, e: Event)
    ensures Run(init, events + [e]) == Next(Run(init, events), e)
  {
    assert (events + [e])[..|events|] == events;
  }

  lemma {:induction false} RunAppend(init: System, a: seq<Event>, b: seq<Event>)
    ensures Run(init, a + b) == Run(Run(init, a), b)
  {
    if b == [] {
      assert a + b == a;
    } else {
      var front := b[..|b| - 1];
      RunAppend(init, a, front);
      assert a + b == (a + front) + [b[|b| - 1]];
      RunLast(init, a + front, b[|b| - 1]);
    }
  }

  /** Each call takes one state to the next. */
  ghost predicate Leads(states: seq<System>, events: seq<Event>) {
    && |states| == |events| + 1
    && forall n | 0 <= n < |events| :: Step(states[n], events[n]) == Done(states[n + 1])
  }

  lemma {:induction false} RunTo(states: seq<System>, events: seq<Event>, n: nat)
    requires Leads(states, events) && n <= |events|
    ensures Run(states[0], events[..n]) == states[n]
  {
    hide Step;
    if n == 0 {
      assert events[..0] == [];
    } else {
      RunTo(states, events, n - 1);
      assert events[..n] == events[..n - 1] + [events[n - 1]];
      RunLast(states[0], events[..n - 1], events[n - 1]);
      assert Step(states[n - 1], events[n - 1]) == Done(states[n - 1 + 1]);
    }
  }

  /** Such calls are all accepted, and their run ends in the last state. */
  lemma RunAlong(states: seq<System>, events: seq<Event>)
    requires Leads(states, events)
    ensures forall n | 0 <= n < |events| :: Accepted(Run(states[0], events[..n]), events[n])
    ensures Run(states[0], events) == states[|events|]
  {
    hide Step, Run;
    forall n | 0 <= n < |events|
      ensures Accepted(Run(states[0], events[..n]), events[n])
    {
      RunTo(states, events, n);
      assert Step(states[n], events[n]) == Done(states[n + 1]);
    }
    RunTo(states, events, |events|);
    assert events[..|events|] == events;
  }

  /** The states a run goes through, from the first to the last. */
  function Trace(init: System, events: seq<Event>): (states: seq<System>)
    ensures |states| == |events| + 1
    ensures states[|events|] == Run(init, events)
  {
    if events == [] then [init] else
      var states := Trace(init, events[..|events| - 1]);
      states + [Next(states[|events| - 1], events[|events| - 1])]
  }

  lemma TraceLast(init: System, events: seq<Event>, e: Event)
    ensures Trace(init, events + [e]) == Trace(init, events) + [Next(Run(init, events), e)]
  {
    assert (events + [e])[..|events|] == events;
  }
}
