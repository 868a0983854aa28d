/** Committing several drafts in one call: one version of the feed for the batch. */
module Batches {
  import opened Records
  import opened Replay
  import opened Drafts
  import opened Cases
  import opened Steps
  import opened Provenance

  /** Each id once, where it first stands. */
  function Distinct(ids: seq<SetId>): (r: seq<SetId>)
    ensures forall x :: x in r <==> x in ids
    ensures forall i, j | 0 <= i < j < |r| :: r[i] != r[j]
  {
    if ids == [] then [] else
      var front := Distinct(ids[..|ids| - 1]);
      if ids[|ids| - 1] in front then front else front + [ids[|ids| - 1]]
  }

  /** The calls one draft of a batch stands for: its approval, when the batch approves
      too, and its commit unless the approval failed. */
  function CallsFor(sys: System, u: User, id: SetId, approve: bool): seq<Event> {
    if approve && !Accepted(sys, EApprove(u, id, false)) then []
    else if approve then [EApprove(u, id, false), ECommit(u, id)]
    else [ECommit(u, id)]
  }

  function AfterCalls(sys: System, u: User, id: SetId, approve: bool): System {
    Run(sys, CallsFor(sys, u, id, approve))
  }

  /** The draft was committed by its calls. */
  predicate CommittedBy(sys: System, u: User, id: SetId, approve: bool) {
    && !(approve && !Accepted(sys, EApprove(u, id, false)))
    && Accepted(if approve then Next(sys, EApprove(u, id, false)) else sys, ECommit(u, id))
  }

  datatype Progress = Progress(sys: System, done: seq<SetId>)

  /** The drafts one after the other; one that fails leaves the others to go on. */
  function Each(sys: System, u: User, ids: seq<SetId>, approve: bool): Progress {
    if ids == [] then Progress(sys, []) else
      var p := Each(sys, u, ids[..|ids| - 1], approve);
      var id := ids[|ids| - 1];
      Progress(AfterCalls(p.sys, u, id, approve),
               if CommittedBy(p.sys, u, id, approve) then p.done + [id] else p.done)
  }

  /** The whole batch, under one version when anything was committed. */
  function CommitMany(sys: System, u: User, ids: seq<SetId>, approve: bool): Outcome {
    if Rank(u.role) < 2 then Refused(Forbidden)
    else if ids == [] then Refused(BadChange)
    else
      var p := Each(sys, u, Distinct(ids), approve);
      Done(if p.done == [] then p.sys else Sealed(p.sys, p.done, sys.version + 1))
  }

  // ---- a batch is a run

  function EachCalls(sys: System, u: User, ids: seq<SetId>, approve: bool): seq<Event> {
    if ids == [] then [] else
      var front := ids[..|ids| - 1];
      EachCalls(sys, u, front, approve) + CallsFor(Each(sys, u, front, approve).sys, u, ids[|ids| - 1], approve)
  }

  lemma {:induction false} EachIsRun(sys: System, u: User, ids: seq<SetId>, approve: bool)
    ensures Each(sys, u, ids, approve).sys == Run(sys, EachCalls(sys, u, ids, approve))
  {
    if ids != [] {
      var front := ids[..|ids| - 1];
      EachIsRun(sys, u, front, approve);
      RunAppend(sys, EachCalls(sys, u, front, approve),
                CallsFor(Each(sys, u, front, approve).sys, u, ids[|ids| - 1], approve));
    }
  }

  /** What holds over every run of single calls holds over a batch: it is one. */
  lemma BatchIsRun(sys: System, u: User, ids: seq<SetId>, approve: bool)
    requires CommitMany(sys, u, ids, approve).Done?
    ensures exists events :: CommitMany(sys, u, ids, approve).sys == Run(sys, events)
  {
    hide *;
    var p := Each(sys, u, Distinct(ids), approve);
    var calls := EachCalls(sys, u, Distinct(ids), approve);
    var seal := ESeal(p.done, sys.version + 1);
    SealIsLast(sys, u, ids, approve);
    EachIsRun(sys, u, Distinct(ids), approve);
    RunLast(sys, calls, seal);
    var events := if p.done == [] then calls else calls + [seal];
    assert CommitMany(sys, u, ids, approve).sys == Run(sys, events);
  }

  lemma SealIsLast(sys: System, u: User, ids: seq<SetId>, approve: bool)
    requires CommitMany(sys, u, ids, approve).Done?
    ensures var p := Each(sys, u, Distinct(ids), approve);
            CommitMany(sys, u, ids, approve).sys == if p.done == [] then p.sys else Next(p.sys, ESeal(p.done, sys.version + 1))
  {
    hide Each, Distinct, Sealed;
  }

  // ---- one version

  /** The feed after the changes of several drafts, in order. */
  function PublishAll(live: Feed, drafts: seq<seq<Change>>): Feed {
    if drafts == [] then live else AfterCommit(PublishAll(live, drafts[..|drafts| - 1]), drafts[|drafts| - 1])
  }

  function ChangesOf(sets: map<SetId, ChangeSet>, ids: seq<SetId>): seq<seq<Change>> {
    seq(|ids|, i requires 0 <= i < |ids| => if ids[i] in sets then sets[ids[i]].changes else [])
  }

  lemma ApproveEffect(sys: System, u: User, id: SetId)
    ensures var now := Next(sys, EApprove(u, id, false));
            && now.feed == sys.feed && now.version == sys.version
            && now.sets.Keys == sys.sets.Keys
            && (forall x | x in sys.sets && x != id :: now.sets[x] == sys.sets[x])
            && (id in sys.sets ==> now.sets[id].changes == sys.sets[id].changes
                                   && (now.sets[id].status == Committed <==> sys.sets[id].status == Committed))
  {
    hide Passes, Overtaken, AddProblem, Projected, AfterCommit, SplitList, Splittable, InUse, ProposalFits;
  }

  lemma CommitEffect(sys: System, u: User, id: SetId)
    ensures var now := Next(sys, ECommit(u, id));
            && now.sets.Keys == sys.sets.Keys
            && (forall x | x in sys.sets && x != id :: now.sets[x] == sys.sets[x])
            && (if Accepted(sys, ECommit(u, id)) then
                  id in sys.sets && sys.sets[id].status == Approved
                  && now.feed == AfterCommit(sys.feed, sys.sets[id].changes) && now.version == sys.version + 1
                  && now.sets[id].status == Committed && now.sets[id].changes == sys.sets[id].changes
                else now == sys)
  {
    hide Passes, Overtaken, AddProblem, Projected, AfterCommit, SplitList, Splittable, InUse, ProposalFits;
  }

  /** One draft of the batch: it is published, or the feed is as it was. */
  ghost predicate OneDraft(sys: System, id: SetId, committed: bool, now: System) {
    && now.sets.Keys == sys.sets.Keys
    && (forall x | x in sys.sets && x != id :: now.sets[x] == sys.sets[x])
    && (id in sys.sets ==> now.sets[id].changes == sys.sets[id].changes)
    && (if committed then
          id in sys.sets && sys.sets[id].status != Committed
          && now.feed == AfterCommit(sys.feed, sys.sets[id].changes) && now.version == sys.version + 1
          && now.sets[id].status == Committed
        else
          now.feed == sys.feed && now.version == sys.version
          && (id in sys.sets ==> (now.sets[id].status == Committed <==> sys.sets[id].status == Committed)))
  }

  lemma DraftOfBatch(sys: System, u: User, id: SetId, approve: bool)
    ensures OneDraft(sys, id, CommittedBy(sys, u, id, approve), AfterCalls(sys, u, id, approve))
  {
    hide Step, AfterCommit;
    var e, c := EApprove(u, id, false), ECommit(u, id);
    RunLast(sys, [], c);
    assert [] + [c] == [c];
    if approve {
      ApproveEffect(sys, u, id);
      RunLast(sys, [], e);
      assert [] + [e] == [e];
      RunLast(sys, [e], c);
      assert [e] + [c] == [e, c];
      CommitEffect(Next(sys, e), u, id);
    } else {
      CommitEffect(sys, u, id);
    }
  }

  ghost predicate EachOk(sys: System, ids: seq<SetId>, p: Progress) {
    && p.sys.sets.Keys == sys.sets.Keys
    && p.sys.version == sys.version + |p.done|
    && p.sys.feed == PublishAll(sys.feed, ChangesOf(sys.sets, p.done))
    && (forall x | x in p.done :: x in ids && x in sys.sets && sys.sets[x].status != Committed)
    && (forall x | x in sys.sets :: p.sys.sets[x].changes == sys.sets[x].changes)
    && (forall x | x in sys.sets && x !in ids :: p.sys.sets[x] == sys.sets[x])
    && (forall x | x in sys.sets :: p.sys.sets[x].status == Committed <==> sys.sets[x].status == Committed || x in p.done)
  }

  lemma PublishOneMore(sys: System, done: seq<SetId>, id: SetId)
    requires id in sys.sets
    ensures PublishAll(sys.feed, ChangesOf(sys.sets, done + [id]))
         == AfterCommit(PublishAll(sys.feed, ChangesOf(sys.sets, done)), sys.sets[id].changes)
  {
    hide AfterCommit;
    var drafts := ChangesOf(sys.sets, done + [id]);
    assert drafts == ChangesOf(sys.sets, done) + [sys.sets[id].changes];
    assert drafts[..|drafts| - 1] == ChangesOf(sys.sets, done);
  }

  lemma OneMoreDraft(sys: System, front: seq<SetId>, p: Progress, id: SetId, committed: bool, now: System)
    requires EachOk(sys, front, p) && id !in front && OneDraft(p.sys, id, committed, now)
    ensures EachOk(sys, front + [id], Progress(now, if committed then p.done + [id] else p.done))
  {
    hide AfterCommit, PublishAll, ChangesOf;
    if committed {
      PublishOneMore(sys, p.done, id);
    }
  }

  lemma {:induction false} EachPublishes(sys: System, u: User, ids: seq<SetId>, approve: bool)
    requires forall i, j | 0 <= i < j < |ids| :: ids[i] != ids[j]
    ensures EachOk(sys, ids, Each(sys, u, ids, approve))
  {
    hide AfterCalls, CommittedBy, PublishAll, OneDraft;
    if ids == [] {
      NothingPublished(sys);
    } else {
      var front, id := ids[..|ids| - 1], ids[|ids| - 1];
      EachPublishes(sys, u, front, approve);
      var p := Each(sys, u, front, approve);
      DraftOfBatch(p.sys, u, id, approve);
      assert id !in front;
      OneMoreDraft(sys, front, p, id, CommittedBy(p.sys, u, id, approve), AfterCalls(p.sys, u, id, approve));
      assert ids == front + [id];
    }
  }

  lemma NothingPublished(sys: System)
    ensures PublishAll(sys.feed, ChangesOf(sys.sets, [])) == sys.feed
  {
    assert ChangesOf(sys.sets, []) == [];
  }

  /** What a batch of these drafts leaves: nothing but the version apart from what
      the drafts it committed published. */
  ghost predicate OneVersion(sys: System, ids: seq<SetId>, done: seq<SetId>, now: System) {
    && now.version == (if done == [] then sys.version else sys.version + 1)
    && now.feed == PublishAll(sys.feed, ChangesOf(sys.sets, done))
    && now.sets.Keys == sys.sets.Keys
    && (forall x | x in done :: x in ids && x in now.sets && now.sets[x].committedVersion == Some(sys.version + 1))
    && (forall x | x in sys.sets ::
          sys.sets[x].status != Committed && now.sets[x].status == Committed <==> x in done)
    && (forall x | x in sys.sets && x !in ids :: now.sets[x] == sys.sets[x])
  }

  /** A batch raises the feed's version by one exactly when it committed a draft; all it
      committed carry that version; and the feed is the one with just their changes. */
  lemma BatchIsOneVersion(sys: System, u: User, ids: seq<SetId>, approve: bool)
    requires CommitMany(sys, u, ids, approve).Done?
    ensures OneVersion(sys, ids, Each(sys, u, Distinct(ids), approve).done, CommitMany(sys, u, ids, approve).sys)
  {
    hide Each, PublishAll, ChangesOf;
    EachPublishes(sys, u, Distinct(ids), approve);
  }

  // ---- versions over a whole run of calls

  /** One request to the editor: a single call, or a batch. */
  datatype Request = One(e: Event) | Many(u: User, ids: seq<SetId>, approve: bool)

  function Answered(sys: System, r: Request): System {
    match r
    case One(e) => if e.ESeal? then sys else Next(sys, e)
    case Many(u, ids, approve) =>
      var o := CommitMany(sys, u, ids, approve);
      if o.Done? then o.sys else sys
  }

  function Answers(init: System, requests: seq<Request>): System {
    if requests == [] then init else
      Answered(Answers(init, requests[..|requests| - 1]), requests[|requests| - 1])
  }

  lemma SingleVersion(sys: System, e: Event)
    requires !e.ESeal?
    ensures Next(sys, e).version == if e.ECommit? && Accepted(sys, e) then sys.version + 1 else sys.version
  {
    hide Passes, Overtaken, AddProblem, Projected, AfterCommit, SplitList, Splittable, InUse, ProposalFits;
  }

  lemma RequestVersion(sys: System, r: Request)
    ensures sys.version <= Answered(sys, r).version <= sys.version + 1
  {
    match r
    case One(e) =>
      if !e.ESeal? {
        SingleVersion(sys, e);
      }
    case Many(u, ids, approve) =>
      if CommitMany(sys, u, ids, approve).Done? {
        BatchIsOneVersion(sys, u, ids, approve);
      }
  }

  /** The feed's version never falls, and no request raises it by more than one. */
  lemma {:induction false} VersionsRise(init: System, requests: seq<Request>)
    ensures init.version <= Answers(init, requests).version <= init.version + |requests|
  {
    if requests != [] {
      VersionsRise(init, requests[..|requests| - 1]);
      RequestVersion(Answers(init, requests[..|requests| - 1]), requests[|requests| - 1]);
    }
  }
}
