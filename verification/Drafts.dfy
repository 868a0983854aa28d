/** Drafts: the change sets, who may do what to them, and the two kinds of case (a
    station proposal, a coordinate review) whose outcome is a change in a draft. */
module Drafts {
  import opened Records
  import opened Replay
  import opened Findings
  import opened RowRules
  import opened Texts
  import opened Validation
  import opened Conflicts
  import opened Integrity

  type SetId = string
  type UserId = string

  datatype Role = Viewer | Editor | Approver | Admin

  datatype User = User(id: UserId, role: Role)

  datatype Status = Draft | Submitted | Rejected | Approved | Committed | Discarded

  datatype ChangeSet = ChangeSet(
    status: Status,
    changes: seq<Change>,
    createdBy: UserId,
    submittedBy: Option<UserId>,
    reviewedBy: Option<UserId>,
    committedBy: Option<UserId>,
    selfApproved: bool,
    committedVersion: Option<int>)

  datatype CaseStatus = CasePending | CaseApproved | CaseCommitted | CaseRejected | CaseConfirmed | CaseSuperseded

  /** Where a case stands, and the draft and change that carry it. */
  datatype Link = Link(status: CaseStatus, set_: Option<SetId>, change: Option<nat>)

  const WAITING := Link(CasePending, None, None)

  datatype Member = Member(stop: Id, platform: Option<string>)

  datatype Proposal = Proposal(station: Id, name: string, position: Position, members: seq<Member>, link: Link)

  datatype Review = Review(stop: Id, link: Link)

  /** Everything one feed's editor holds. */
  datatype System = System(
    feed: Feed,
    version: int,
    sets: map<SetId, ChangeSet>,
    proposals: map<nat, Proposal>,
    reviews: map<nat, Review>,
    nextChange: nat)

  datatype Refusal =
    | Forbidden | NotAuthor | OwnChangeSet | NotDraft | BadStatus
    | UnknownChangeSet | UnknownChange | BadChange | EntityNotFound
    | EmptyChangeSet | ValidationFailed | ChangeSetConflicts | CommentRequired
    | DraftConflict | CaseNotOpen | CaseInOtherDraft | CaseHasProblems | UnknownCase | IdInUse

  datatype Outcome = Done(sys: System) | Refused(why: Refusal)

  function Rank(r: Role): nat {
    match r
    case Viewer => 0
    case Editor => 1
    case Approver => 2
    case Admin => 3
  }

  function ReviewStops(reviews: map<nat, Review>): map<nat, Id> {
    map r | r in reviews :: reviews[r].stop
  }

  function WithSet(sys: System, id: SetId, cs: ChangeSet): System {
    sys.(sets := sys.sets[id := cs])
  }

  // ---- editing a draft

  /** The draft with one more change, under the next id. */
  function Appended(sys: System, id: SetId, key: Id, edit: Edit, base: Option<int>, review: Option<nat>): System
    requires id in sys.sets
  {
    var cs := sys.sets[id];
    WithSet(sys, id, cs.(changes := cs.changes + [Change(sys.nextChange, key, edit, base, review)]))
      .(nextChange := sys.nextChange + 1)
  }

  predicate IsDelete(e: Edit) {
    e.StopDelete? || e.RouteDelete? || e.StationDelete?
  }

  predicate IsCreate(e: Edit) {
    e.StopCreate? || e.RouteCreate? || e.StationCreate?
  }

  /** The payload replaces one of the same entity and operation. */
  predicate SameKind(a: Edit, b: Edit) {
    match a
    case StopCreate(_, _, _) => b.StopCreate?
    case StopUpdate(_, _, _) => b.StopUpdate?
    case StopDelete => b.StopDelete?
    case StopMerge(_, _, _) => b.StopMerge?
    case RouteCreate(_) => b.RouteCreate?
    case RouteUpdate(_, _) => b.RouteUpdate?
    case RouteDelete => b.RouteDelete?
    case RowsReplace(_, _) => b.RowsReplace?
    case StationCreate(_, _, _) => b.StationCreate?
    case StationUpdate(_, _, _) => b.StationUpdate?
    case StationDelete => b.StationDelete?
    case StationMerge(_, _, _) => b.StationMerge?
  }

  predicate Truthy(base: Option<int>) {
    base.Some? && base.value != 0
  }

  function LiveVersion(live: Feed, key: Id, edit: Edit): Option<int> {
    if OnStop(edit) || OnStation(edit) then
      if key in live.stops then Some(live.stops[key].version) else None
    else if edit.RowsReplace? then None
    else if key in live.routes then Some(live.routes[key].version)
    else None
  }

  /** What `after` of a station merge records of the station that stays. */
  function Recorded(live: Feed, edit: Edit): Edit {
    if edit.StationMerge? && !Truthy(edit.intoVersion) then
      edit.(intoVersion := if edit.into in live.stops then Some(live.stops[edit.into].version) else None)
    else edit
  }

  /** Why a change cannot be added to the draft, if it cannot. */
  function AddProblem(live: Feed, changes: seq<Change>, key: Id, edit: Edit, review: Option<nat>): Option<Refusal> {
    var proj := Projected(live, changes);
    if IsDelete(edit) && review.Some? then Some(BadChange)
    else if (edit.StationCreate? || edit.StationUpdate?) && edit.members.Some? && |edit.members.value.want| < 2 then Some(BadChange)
    else if edit.StopUpdate? && review.Some? && edit.newPosition.None? then Some(BadChange)
    else if IsMerge(edit) then MergeProblem(proj, key, edit)
    else if edit.RouteDelete? && exists i :: 0 <= i < |changes| && changes[i].key == key
                                             && (changes[i].edit.RowsReplace? || changes[i].edit.RouteUpdate? || changes[i].edit.RouteDelete?)
    then Some(BadStatus)
    else if !IsCreate(edit) && !edit.RowsReplace? && !InView(proj, key, edit) then Some(EntityNotFound)
    else None
  }

  predicate InView(proj: Feed, key: Id, edit: Edit) {
    if OnStop(edit) || OnStation(edit) then key in proj.stops else key in proj.routes
  }

  function MergeProblem(proj: Feed, key: Id, edit: Edit): Option<Refusal>
    requires IsMerge(edit)
  {
    var into := edit.into;
    if into == key then Some(BadChange)
    else if key !in proj.stops || proj.stops[key].deleted || into !in proj.stops || proj.stops[into].deleted then Some(EntityNotFound)
    else if edit.StopMerge? && (proj.stops[key].locationType == 1 || proj.stops[into].locationType == 1) then Some(BadChange)
    else if edit.StationMerge? && (proj.stops[key].locationType != 1 || proj.stops[into].locationType != 1) then Some(BadChange)
    else if edit.StationMerge? && proj.stops[into].parent.Some? then Some(BadChange)
    else None
  }

  /** Editing needs the editor role and a draft. */
  function EditProblem(sys: System, u: User, id: SetId): Option<Refusal> {
    if id !in sys.sets then Some(UnknownChangeSet)
    else if Rank(u.role) < 1 then Some(Forbidden)
    else if sys.sets[id].status != Draft then Some(NotDraft)
    else None
  }

  function AddChange(sys: System, u: User, id: SetId, key: Id, edit: Edit, base: Option<int>, review: Option<nat>): Outcome {
    var p := EditProblem(sys, u, id);
    if p.Some? then Refused(p.value) else
      var q := AddProblem(sys.feed, sys.sets[id].changes, key, edit, review);
      if q.Some? then Refused(q.value)
      else Done(Appended(sys, id, key, Recorded(sys.feed, edit),
                         if Truthy(base) then base else LiveVersion(sys.feed, key, edit), review))
  }

  /** Where a change id first stands, or the length. */
  function IndexOf(changes: seq<Change>, cid: nat): (i: nat)
    ensures i <= |changes|
    ensures i < |changes| ==> changes[i].id == cid
    ensures forall k | 0 <= k < i :: changes[k].id != cid
  {
    if changes == [] || changes[0].id == cid then 0 else 1 + IndexOf(changes[1..], cid)
  }

  /** A draft's change takes a new payload. Its entity, operation, key and coordinate
      review are fixed; a merge keeps its two records apart. */
  function PutChange(sys: System, u: User, id: SetId, cid: nat, edit: Edit, base: Option<int>, review: Option<nat>): Outcome {
    var p := EditProblem(sys, u, id);
    if p.Some? then Refused(p.value) else
      var cs := sys.sets[id];
      var i := IndexOf(cs.changes, cid);
      if i == |cs.changes| then Refused(UnknownChange) else
        var ch := cs.changes[i];
        if !SameKind(ch.edit, edit) || (IsMerge(edit) && edit.into == ch.key) || (IsDelete(edit) && review.Some?) then Refused(BadChange)
        else if ch.review.Some? && review.Some? && review != ch.review then Refused(BadChange)
        else
          var now := ch.(edit := edit, base := if Truthy(base) then base else ch.base,
                         review := if ch.review.Some? then ch.review else review);
          Done(WithSet(sys, id, cs.(changes := cs.changes[i := now])))
  }

  // ---- the cases a draft carries

  /** The case is carried by this draft. */
  predicate CarriedBy(link: Link, id: SetId) {
    link.status == CaseApproved && link.set_ == Some(id)
  }

  function Returned(link: Link, id: SetId): Link {
    if CarriedBy(link, id) then WAITING else link
  }

  function Released(link: Link, id: SetId): Link {
    if CarriedBy(link, id) then link.(status := CaseCommitted) else link
  }

  function ReturnedProposals(ps: map<nat, Proposal>, id: SetId): map<nat, Proposal> {
    map p | p in ps :: ps[p].(link := Returned(ps[p].link, id))
  }

  function ReturnedReviews(rs: map<nat, Review>, id: SetId): map<nat, Review> {
    map r | r in rs :: rs[r].(link := Returned(rs[r].link, id))
  }

  function ReleasedProposals(ps: map<nat, Proposal>, id: SetId): map<nat, Proposal> {
    map p | p in ps :: ps[p].(link := Released(ps[p].link, id))
  }

  function ReleasedReviews(rs: map<nat, Review>, id: SetId): map<nat, Review> {
    map r | r in rs :: rs[r].(link := Released(rs[r].link, id))
  }

  /** The proposals after a change left their draft. */
  function ReturnedProposalOf(ps: map<nat, Proposal>, id: SetId, cid: nat): map<nat, Proposal> {
    map p | p in ps ::
      if ps[p].link.change == Some(cid) then ps[p].(link := Returned(ps[p].link, id)) else ps[p]
  }

  // ---- removing a change

  /** A stop list of the review that names the stop its split created. */
  predicate GoesWith(c: Change, review: nat, created: Id) {
    c.edit.RowsReplace? && c.review == Some(review) && Names(c.edit.rows, created)
  }

  function Keeping(changes: seq<Change>, review: nat, created: Id): seq<Change> {
    if changes == [] then [] else
      var last := changes[|changes| - 1];
      Keeping(changes[..|changes| - 1], review, created) + (if GoesWith(last, review, created) then [] else [last])
  }

  /** The last change on a stop that carries the review, if any. */
  function LastOf(changes: seq<Change>, review: nat): Option<nat> {
    if changes == [] then None else
      var last := changes[|changes| - 1];
      if OnStop(last.edit) && last.review == Some(review) then Some(last.id)
      else LastOf(changes[..|changes| - 1], review)
  }

  function RemoveAt(changes: seq<Change>, i: nat): seq<Change>
    requires i < |changes|
  {
    changes[..i] + changes[i + 1..]
  }

  /** A change of a review left its draft: a split's new stop takes its stop lists
      along, and a review with no change on a stop left is waiting again. */
  function AfterRemoval(sys: System, id: SetId, ch: Change): System
    requires id in sys.sets
  {
    if ch.review.None? || ch.review.value !in sys.reviews || !CarriedBy(sys.reviews[ch.review.value].link, id) then sys else
      var r := ch.review.value;
      var cs := sys.sets[id];
      var left := if ch.edit.StopCreate? then Keeping(cs.changes, r, ch.key) else cs.changes;
      var last := LastOf(left, r);
      var link := if last.Some? then sys.reviews[r].link.(change := last) else WAITING;
      WithSet(sys, id, cs.(changes := left)).(reviews := sys.reviews[r := sys.reviews[r].(link := link)])
  }

  function RemoveChange(sys: System, u: User, id: SetId, cid: nat): Outcome {
    var p := EditProblem(sys, u, id);
    if p.Some? then Refused(p.value) else
      var cs := sys.sets[id];
      var i := IndexOf(cs.changes, cid);
      if i == |cs.changes| then Refused(UnknownChange) else
        var cut := WithSet(sys, id, cs.(changes := RemoveAt(cs.changes, i)))
                     .(proposals := ReturnedProposalOf(sys.proposals, id, cid));
        Done(AfterRemoval(cut, id, cs.changes[i]))
  }

  // ---- the life of a draft

  function NewDraft(sys: System, u: User, id: SetId): Outcome {
    if Rank(u.role) < 1 then Refused(Forbidden)
    else if id in sys.sets then Refused(IdInUse)
    else Done(WithSet(sys, id, ChangeSet(Draft, [], u.id, None, None, None, false, None)))
  }

  predicate Passes(sys: System, changes: seq<Change>) {
    Valid(sys.feed, changes, ReviewStops(sys.reviews))
  }

  predicate Overtaken(sys: System, changes: seq<Change>) {
    SetConflicts(sys.feed, changes) != []
  }

  function Submit(sys: System, u: User, id: SetId): Outcome {
    if id !in sys.sets then Refused(UnknownChangeSet) else
      var cs := sys.sets[id];
      if Rank(u.role) < 1 then Refused(Forbidden)
      else if cs.status != Draft then Refused(BadStatus)
      else if cs.changes == [] then Refused(EmptyChangeSet)
      else if !Passes(sys, cs.changes) then Refused(ValidationFailed)
      else if Overtaken(sys, cs.changes) then Refused(ChangeSetConflicts)
      else Done(WithSet(sys, id, cs.(status := Submitted, submittedBy := Some(u.id), selfApproved := false)))
  }

  function Reopen(sys: System, u: User, id: SetId): Outcome {
    if id !in sys.sets then Refused(UnknownChangeSet) else
      var cs := sys.sets[id];
      if cs.status != Submitted && cs.status != Rejected && cs.status != Approved then Refused(BadStatus)
      else if u.id != cs.createdBy && Some(u.id) != cs.submittedBy && u.role != Admin then Refused(NotAuthor)
      else Done(WithSet(sys, id, cs.(status := Draft, submittedBy := None, reviewedBy := None, selfApproved := false)))
  }

  function Approve(sys: System, u: User, id: SetId, selfApprove: bool): Outcome {
    if id !in sys.sets then Refused(UnknownChangeSet) else
      var cs := sys.sets[id];
      var own := Some(u.id) == cs.submittedBy;
      if own && u.role == Admin && selfApprove && cs.status == Submitted then
        Done(WithSet(sys, id, cs.(status := Approved, reviewedBy := Some(u.id), selfApproved := true)))
      else if Rank(u.role) < 2 then Refused(Forbidden)
      else if cs.status != Submitted then Refused(BadStatus)
      else if own then Refused(OwnChangeSet)
      else Done(WithSet(sys, id, cs.(status := Approved, reviewedBy := Some(u.id))))
  }

  function Reject(sys: System, u: User, id: SetId, comment: string): Outcome {
    if id !in sys.sets then Refused(UnknownChangeSet) else
      var cs := sys.sets[id];
      if Rank(u.role) < 2 then Refused(Forbidden)
      else if cs.status != Submitted then Refused(BadStatus)
      else if Some(u.id) == cs.submittedBy then Refused(OwnChangeSet)
      else if Blank(comment) then Refused(CommentRequired)
      else Done(WithSet(sys, id, cs.(status := Rejected, reviewedBy := Some(u.id))))
  }

  /** Why a draft cannot be committed now, if it cannot. */
  function CommitProblem(sys: System, u: User, id: SetId): Option<Refusal> {
    if id !in sys.sets then Some(UnknownChangeSet) else
      var cs := sys.sets[id];
      var own := Some(u.id) == cs.submittedBy;
      var overridden := own && u.role == Admin && cs.selfApproved;
      if Rank(u.role) < 2 then Some(Forbidden)
      else if cs.status != Approved then Some(BadStatus)
      else if own && !overridden then Some(OwnChangeSet)
      else if Overtaken(sys, cs.changes) then Some(ChangeSetConflicts)
      else if !Passes(sys, cs.changes) then Some(ValidationFailed)
      else None
  }

  /** The draft's projection goes live as the next version of the feed, and every
      case the draft carries is settled with it. */
  function CommittedSystem(sys: System, u: User, id: SetId): System
    requires id in sys.sets
  {
    var cs := sys.sets[id];
    System(AfterCommit(sys.feed, cs.changes),
           sys.version + 1,
           sys.sets[id := cs.(status := Committed, committedBy := Some(u.id), committedVersion := Some(sys.version + 1))],
           ReleasedProposals(sys.proposals, id),
           ReleasedReviews(sys.reviews, id),
           sys.nextChange)
  }

  function Commit(sys: System, u: User, id: SetId): Outcome {
    var p := CommitProblem(sys, u, id);
    if p.Some? then Refused(p.value) else Done(CommittedSystem(sys, u, id))
  }

  function Discard(sys: System, u: User, id: SetId): Outcome {
    if id !in sys.sets then Refused(UnknownChangeSet) else
      var cs := sys.sets[id];
      if cs.status == Committed || cs.status == Discarded then Refused(BadStatus)
      else if u.id != cs.createdBy && u.role != Admin then Refused(NotAuthor)
      else Done(WithSet(sys, id, cs.(status := Discarded))
                  .(proposals := ReturnedProposals(sys.proposals, id), reviews := ReturnedReviews(sys.reviews, id)))
  }
}
