/** What every reachable state keeps about drafts and the cases they carry. */
module Lifecycle {
  import opened Records
  import opened Replay
  import opened Drafts
  import opened Cases
  import opened Steps
  import opened Merges
  import Texts
  import Sequences

  // ---- the invariant

  predicate CarriesStation(changes: seq<Change>, cid: nat, station: Id) {
    exists i :: 0 <= i < |changes| && changes[i].id == cid && changes[i].edit.StationCreate? && changes[i].key == station
  }

  predicate CarriesReview(changes: seq<Change>, cid: nat, rid: nat) {
    exists i :: 0 <= i < |changes| && changes[i].id == cid && OnStop(changes[i].edit) && changes[i].review == Some(rid)
  }

  /** A case is carried by a draft exactly as its status says. */
  predicate LinkOk(sets: map<SetId, ChangeSet>, link: Link) {
    match link.status
    case CaseApproved =>
      link.set_.Some? && link.change.Some? && link.set_.value in sets
      && sets[link.set_.value].status != Committed && sets[link.set_.value].status != Discarded
    case CaseCommitted =>
      link.set_.Some? && link.change.Some? && link.set_.value in sets && sets[link.set_.value].status == Committed
    case _ => link.set_.None? && link.change.None?
  }

  predicate ProposalOk(sets: map<SetId, ChangeSet>, p: Proposal) {
    && LinkOk(sets, p.link)
    && (p.link.set_.Some? ==> CarriesStation(sets[p.link.set_.value].changes, p.link.change.value, p.station))
  }

  predicate ReviewOk(sets: map<SetId, ChangeSet>, rid: nat, rv: Review) {
    && LinkOk(sets, rv.link)
    && (rv.link.set_.Some? ==> CarriesReview(sets[rv.link.set_.value].changes, rv.link.change.value, rid))
  }

  /** Change ids are given out once; a merge is never of a record into itself. */
  predicate ChangesOk(changes: seq<Change>, next: nat) {
    && (forall i | 0 <= i < |changes| :: changes[i].id < next && NotIntoItself(changes[i]))
    && (forall i, j | 0 <= i < j < |changes| :: changes[i].id != changes[j].id)
  }

  ghost predicate SetsOk(sets: map<SetId, ChangeSet>, next: nat) {
    forall id | id in sets :: ChangesOk(sets[id].changes, next)
  }

  ghost predicate ProposalsOk(sets: map<SetId, ChangeSet>, ps: map<nat, Proposal>) {
    forall p | p in ps :: ProposalOk(sets, ps[p])
  }

  ghost predicate ReviewsOk(sets: map<SetId, ChangeSet>, rs: map<nat, Review>) {
    forall r | r in rs :: ReviewOk(sets, r, rs[r])
  }

  ghost predicate Tied(sys: System) {
    SetsOk(sys.sets, sys.nextChange) && ProposalsOk(sys.sets, sys.proposals) && ReviewsOk(sys.sets, sys.reviews)
  }

  // ---- steps that touch one draft's changes

  /** The draft's change list grows or is rewritten so that what it carried stays. */
  ghost predicate KeepsCarried(was: seq<Change>, now: seq<Change>) {
    && (forall cid, station :: CarriesStation(was, cid, station) ==> CarriesStation(now, cid, station))
    && (forall cid, rid :: CarriesReview(was, cid, rid) ==> CarriesReview(now, cid, rid))
  }

  lemma AppendKeeps(was: seq<Change>, more: seq<Change>)
    ensures KeepsCarried(was, was + more)
  {
    assert forall i | 0 <= i < |was| :: (was + more)[i] == was[i];
  }

  lemma TiedAfterDraftEdit(sys: System, id: SetId, changes: seq<Change>, next: nat)
    requires Tied(sys) && id in sys.sets && sys.sets[id].status == Draft
    requires KeepsCarried(sys.sets[id].changes, changes)
    requires sys.nextChange <= next && ChangesOk(changes, next)
    ensures Tied(sys.(sets := sys.sets[id := sys.sets[id].(changes := changes)], nextChange := next))
  {
  }

  lemma AppendedOk(changes: seq<Change>, next: nat, ch: Change)
    requires ChangesOk(changes, next) && ch.id == next && NotIntoItself(ch)
    ensures ChangesOk(changes + [ch], next + 1)
  {
  }

  lemma AppendedTied(sys: System, id: SetId, key: Id, edit: Edit, base: Option<int>, review: Option<nat>)
    requires Tied(sys) && id in sys.sets && sys.sets[id].status == Draft
    requires IsMerge(edit) ==> edit.into != key
    ensures Tied(Appended(sys, id, key, edit, base, review))
  {
    var ch := Change(sys.nextChange, key, edit, base, review);
    AppendKeeps(sys.sets[id].changes, [ch]);
    AppendedOk(sys.sets[id].changes, sys.nextChange, ch);
    TiedAfterDraftEdit(sys, id, sys.sets[id].changes + [ch], sys.nextChange + 1);
  }

  lemma AddTied(sys: System, u: User, id: SetId, key: Id, edit: Edit, base: Option<int>, review: Option<nat>)
    requires Tied(sys) && AddChange(sys, u, id, key, edit, base, review).Done?
    ensures Tied(AddChange(sys, u, id, key, edit, base, review).sys)
  {
    AppendedTied(sys, id, key, Recorded(sys.feed, edit),
                 if Truthy(base) then base else LiveVersion(sys.feed, key, edit), review);
  }

  /** A change put in another's place is found wherever that one was. */
  lemma PutIsFound(was: seq<Change>, i: nat, ch: Change)
    requires i < |was| && ch.id == was[i].id && ch.key == was[i].key
    requires was[i].edit.StationCreate? ==> ch.edit.StationCreate?
    requires OnStop(was[i].edit) ==> OnStop(ch.edit)
    requires was[i].review.Some? ==> ch.review == was[i].review
    ensures forall c: nat, station: Id | CarriesStation(was, c, station) :: CarriesStation(was[i := ch], c, station)
    ensures forall c: nat, rid: nat | CarriesReview(was, c, rid) :: CarriesReview(was[i := ch], c, rid)
  {
    var now := was[i := ch];
    forall c: nat, station: Id | CarriesStation(was, c, station)
      ensures CarriesStation(now, c, station)
    {
      var k :| 0 <= k < |was| && was[k].id == c && was[k].edit.StationCreate? && was[k].key == station;
      assert now[k].id == c && now[k].edit.StationCreate? && now[k].key == station;
    }
    forall c: nat, rid: nat | CarriesReview(was, c, rid)
      ensures CarriesReview(now, c, rid)
    {
      var k :| 0 <= k < |was| && was[k].id == c && OnStop(was[k].edit) && was[k].review == Some(rid);
      assert now[k].id == c && OnStop(now[k].edit) && now[k].review == Some(rid);
    }
  }

  lemma PutKeepsOk(sys: System, id: SetId, i: nat, ch: Change)
    requires Tied(sys) && id in sys.sets && i < |sys.sets[id].changes|
    requires ch.id == sys.sets[id].changes[i].id && NotIntoItself(ch)
    ensures ChangesOk(sys.sets[id].changes[i := ch], sys.nextChange)
  {
  }

  lemma PutTied(sys: System, u: User, id: SetId, cid: nat, edit: Edit, base: Option<int>, review: Option<nat>)
    requires Tied(sys) && PutChange(sys, u, id, cid, edit, base, review).Done?
    ensures Tied(PutChange(sys, u, id, cid, edit, base, review).sys)
  {
    hide Tied, CarriesStation, CarriesReview;
    var was := sys.sets[id].changes;
    var i := IndexOf(was, cid);
    var now := PutChange(sys, u, id, cid, edit, base, review).sys.sets[id].changes;
    assert now == was[i := now[i]];
    PutIsFound(was, i, now[i]);
    PutKeepsOk(sys, id, i, now[i]);
    TiedAfterDraftEdit(sys, id, now, sys.nextChange);
  }

  // ---- removing a change

  lemma {:induction false} KeepingKeeps(changes: seq<Change>, review: nat, created: Id)
    ensures forall c | c in changes && !GoesWith(c, review, created) :: c in Keeping(changes, review, created)
    ensures forall c | c in Keeping(changes, review, created) :: c in changes && !GoesWith(c, review, created)
  {
    if changes != [] {
      var front, last := changes[..|changes| - 1], changes[|changes| - 1];
      KeepingKeeps(front, review, created);
      assert changes == front + [last];
    }
  }

  lemma NewIdLast(front: seq<Change>, last: Change, kept: seq<Change>, next: nat)
    requires ChangesOk(front + [last], next) && ChangesOk(kept, next) && forall c | c in kept :: c in front
    ensures ChangesOk(kept + [last], next)
  {
    var all := front + [last];
    assert all[|front|] == last;
    forall i | 0 <= i < |kept|
      ensures kept[i].id != last.id
    {
      assert kept[i] in front;
      var k :| 0 <= k < |front| && front[k] == kept[i];
      assert all[k] == kept[i];
    }
  }

  lemma OkFront(changes: seq<Change>, next: nat)
    requires ChangesOk(changes, next) && changes != []
    ensures ChangesOk(changes[..|changes| - 1], next)
  {
  }

  lemma KeepingStep(changes: seq<Change>, review: nat, created: Id)
    requires changes != []
    ensures var front, last := changes[..|changes| - 1], changes[|changes| - 1];
            Keeping(changes, review, created) == Keeping(front, review, created)
            || Keeping(changes, review, created) == Keeping(front, review, created) + [last]
  {
    hide GoesWith;
  }

  lemma {:induction false} KeepingOk(changes: seq<Change>, review: nat, created: Id, next: nat)
    requires ChangesOk(changes, next)
    ensures ChangesOk(Keeping(changes, review, created), next)
  {
    if changes == [] {
      assert Keeping(changes, review, created) == [];
    } else {
      hide *;
      var front, last := changes[..|changes| - 1], changes[|changes| - 1];
      OkFront(changes, next);
      KeepingOk(front, review, created, next);
      KeepingKeeps(front, review, created);
      Sequences.FrontAndLast(changes);
      KeepingStep(changes, review, created);
      NewIdLast(front, last, Keeping(front, review, created), next);
    }
  }

  lemma {:induction false} LastOfCarries(changes: seq<Change>, review: nat)
    ensures match LastOf(changes, review)
            case Some(cid) => CarriesReview(changes, cid, review)
            case None => forall i | 0 <= i < |changes| :: !(OnStop(changes[i].edit) && changes[i].review == Some(review))
  {
    if changes != [] {
      var front := changes[..|changes| - 1];
      LastOfCarries(front, review);
      var last := changes[|changes| - 1];
      if !(OnStop(last.edit) && last.review == Some(review)) && LastOf(front, review).Some? {
        var cid := LastOf(front, review).value;
        var i :| 0 <= i < |front| && front[i].id == cid && OnStop(front[i].edit) && front[i].review == Some(review);
        assert changes[i] == front[i];
      }
    }
  }

  /** The change list after a removal: the change goes, with the stop lists of its split. */
  function Left(changes: seq<Change>, i: nat, whole: bool): seq<Change>
    requires i < |changes|
  {
    var cut := RemoveAt(changes, i);
    var ch := changes[i];
    if whole && ch.review.Some? && ch.edit.StopCreate? then Keeping(cut, ch.review.value, ch.key) else cut
  }

  lemma LeftOk(changes: seq<Change>, i: nat, whole: bool, next: nat)
    requires i < |changes| && ChangesOk(changes, next)
    ensures ChangesOk(Left(changes, i, whole), next)
    ensures forall c | c in changes && c != changes[i] && !c.edit.RowsReplace? :: c in Left(changes, i, whole)
  {
    var cut, ch := RemoveAt(changes, i), changes[i];
    assert forall k | 0 <= k < |cut| :: cut[k] == changes[if k < i then k else k + 1];
    forall c | c in changes && c != changes[i]
      ensures c in cut
    {
      var k :| 0 <= k < |changes| && changes[k] == c;
      assert cut[if k < i then k else k - 1] == c;
    }
    if whole && ch.review.Some? && ch.edit.StopCreate? {
      KeepingOk(cut, ch.review.value, ch.key, next);
      KeepingKeeps(cut, ch.review.value, ch.key);
    }
  }

  /** What a removal leaves of the cases carried through other changes. */
  lemma LeftCarries(changes: seq<Change>, i: nat, whole: bool, next: nat)
    requires i < |changes| && ChangesOk(changes, next)
    ensures forall cid, station :: CarriesStation(changes, cid, station) && cid != changes[i].id ==>
              CarriesStation(Left(changes, i, whole), cid, station)
    ensures forall cid, rid :: CarriesReview(changes, cid, rid) && cid != changes[i].id ==>
              CarriesReview(Left(changes, i, whole), cid, rid)
  {
    var left := Left(changes, i, whole);
    LeftOk(changes, i, whole, next);
    forall cid: nat, station: Id | CarriesStation(changes, cid, station) && cid != changes[i].id
      ensures CarriesStation(left, cid, station)
    {
      var k :| 0 <= k < |changes| && changes[k].id == cid && changes[k].edit.StationCreate? && changes[k].key == station;
      assert changes[k] in left;
    }
    forall cid: nat, rid: nat | CarriesReview(changes, cid, rid) && cid != changes[i].id
      ensures CarriesReview(left, cid, rid)
    {
      var k :| 0 <= k < |changes| && changes[k].id == cid && OnStop(changes[k].edit) && changes[k].review == Some(rid);
      assert changes[k] in left;
    }
  }

  /** Which changes a removal takes along depends on whether the review is this draft's. */
  predicate Whole(sys: System, id: SetId, ch: Change) {
    ch.review.Some? && ch.review.value in sys.reviews && CarriedBy(sys.reviews[ch.review.value].link, id)
  }

  /** A review's link after one of its changes went. */
  function Relinked(left: seq<Change>, rid: nat, link: Link): Link {
    var last := LastOf(left, rid);
    if last.Some? then link.(change := last) else WAITING
  }

  /** What taking change `i` out of a draft does. */
  predicate Removes(sys: System, now: System, id: SetId, i: nat, cid: nat)
    requires id in sys.sets && i < |sys.sets[id].changes|
  {
    var was := sys.sets[id].changes;
    var ch := was[i];
    var left := Left(was, i, Whole(sys, id, ch));
    && now.sets == sys.sets[id := sys.sets[id].(changes := left)]
    && now.nextChange == sys.nextChange
    && now.proposals == ReturnedProposalOf(sys.proposals, id, cid)
    && now.reviews == if Whole(sys, id, ch)
         then sys.reviews[ch.review.value := sys.reviews[ch.review.value].(link := Relinked(left, ch.review.value, sys.reviews[ch.review.value].link))]
         else sys.reviews
  }

  lemma RemoveIs(sys: System, u: User, id: SetId, cid: nat) returns (i: nat)
    requires RemoveChange(sys, u, id, cid).Done?
    ensures id in sys.sets && sys.sets[id].status == Draft
    ensures i == IndexOf(sys.sets[id].changes, cid) < |sys.sets[id].changes| && sys.sets[id].changes[i].id == cid
    ensures Removes(sys, RemoveChange(sys, u, id, cid).sys, id, i, cid)
  {
    i := IndexOf(sys.sets[id].changes, cid);
  }

  lemma OwnReviewRelinked(sys: System, now: System, id: SetId, i: nat, cid: nat)
    requires id in sys.sets && sys.sets[id].status == Draft && i < |sys.sets[id].changes|
    requires Removes(sys, now, id, i, cid) && Whole(sys, id, sys.sets[id].changes[i])
    ensures var r := sys.sets[id].changes[i].review.value;
            r in now.reviews && ReviewOk(now.sets, r, now.reviews[r])
  {
    hide Left, CarriesReview;
    var r := sys.sets[id].changes[i].review.value;
    LastOfCarries(now.sets[id].changes, r);
  }

  lemma OtherReviewCarried(sys: System, now: System, id: SetId, i: nat, cid: nat, r: nat)
    requires Tied(sys) && id in sys.sets && sys.sets[id].status == Draft && i < |sys.sets[id].changes|
    requires Removes(sys, now, id, i, cid) && r in sys.reviews
    requires !(Whole(sys, id, sys.sets[id].changes[i]) && r == sys.sets[id].changes[i].review.value)
    ensures r in now.reviews && ReviewOk(now.sets, r, now.reviews[r])
  {
    var was := sys.sets[id].changes;
    LeftCarries(was, i, Whole(sys, id, was[i]), sys.nextChange);
    assert ReviewOk(sys.sets, r, sys.reviews[r]) && now.reviews[r] == sys.reviews[r];
    if sys.reviews[r].link.set_ == Some(id) {
      NotThroughThis(sys, id, i, r);
    }
    hide Left, CarriesReview, ChangesOk, Tied, Relinked, Whole;
  }

  /** The review of the change removed is relinked; any other is carried as it was. */
  lemma ReviewAfterRemoval(sys: System, now: System, id: SetId, i: nat, cid: nat, r: nat)
    requires Tied(sys) && id in sys.sets && sys.sets[id].status == Draft && i < |sys.sets[id].changes|
    requires Removes(sys, now, id, i, cid) && r in now.reviews
    ensures ReviewOk(now.sets, r, now.reviews[r])
  {
    assert Whole(sys, id, sys.sets[id].changes[i]) ==> sys.sets[id].changes[i].review.Some?;
    assert r in sys.reviews;
    hide *;
    if Whole(sys, id, sys.sets[id].changes[i]) && r == sys.sets[id].changes[i].review.value {
      OwnReviewRelinked(sys, now, id, i, cid);
    } else {
      OtherReviewCarried(sys, now, id, i, cid, r);
    }
  }

  lemma ProposalAfterRemoval(sys: System, now: System, id: SetId, i: nat, cid: nat, p: nat)
    requires Tied(sys) && id in sys.sets && sys.sets[id].status == Draft && i < |sys.sets[id].changes|
    requires sys.sets[id].changes[i].id == cid
    requires Removes(sys, now, id, i, cid) && p in now.proposals
    ensures ProposalOk(now.sets, now.proposals[p])
  {
    var was := sys.sets[id].changes;
    LeftCarries(was, i, Whole(sys, id, was[i]), sys.nextChange);
    assert ProposalOk(sys.sets, sys.proposals[p]);
    hide Left, CarriesStation, ChangesOk, Tied;
  }

  lemma SetsAfterRemoval(sys: System, now: System, id: SetId, i: nat, cid: nat)
    requires Tied(sys) && id in sys.sets && i < |sys.sets[id].changes| && Removes(sys, now, id, i, cid)
    ensures SetsOk(now.sets, now.nextChange)
  {
    LeftOk(sys.sets[id].changes, i, Whole(sys, id, sys.sets[id].changes[i]), sys.nextChange);
    hide Left, ChangesOk;
  }

  lemma RemoveTied(sys: System, u: User, id: SetId, cid: nat)
    requires Tied(sys) && RemoveChange(sys, u, id, cid).Done?
    ensures Tied(RemoveChange(sys, u, id, cid).sys)
  {
    var i := RemoveIs(sys, u, id, cid);
    var now := RemoveChange(sys, u, id, cid).sys;
    SetsAfterRemoval(sys, now, id, i, cid);
    hide RemoveChange, Removes, ReviewOk, ProposalOk, SetsOk;
    forall r | r in now.reviews
      ensures ReviewOk(now.sets, r, now.reviews[r])
    {
      ReviewAfterRemoval(sys, now, id, i, cid, r);
    }
    forall p | p in now.proposals
      ensures ProposalOk(now.sets, now.proposals[p])
    {
      ProposalAfterRemoval(sys, now, id, i, cid, p);
    }
  }

  /** A review carried through this very change is the change's own review. */
  lemma NotThroughThis(sys: System, id: SetId, i: nat, r: nat)
    requires Tied(sys) && id in sys.sets && sys.sets[id].status == Draft && i < |sys.sets[id].changes|
    requires r in sys.reviews && sys.reviews[r].link.set_ == Some(id)
    requires !(Whole(sys, id, sys.sets[id].changes[i]) && r == sys.sets[id].changes[i].review.value)
    ensures sys.reviews[r].link.status == CaseApproved && sys.reviews[r].link.change != Some(sys.sets[id].changes[i].id)
  {
    var was := sys.sets[id].changes;
    assert ReviewOk(sys.sets, r, sys.reviews[r]);
    var cid := sys.reviews[r].link.change.value;
    var k :| 0 <= k < |was| && was[k].id == cid && OnStop(was[k].edit) && was[k].review == Some(r);
    assert was[k].id == was[i].id ==> k == i;
  }

  // ---- the life of a draft

  /** Drafts keep their changes; one changes status, leaving no case behind. */
  lemma StatusTied(sys: System, id: SetId, cs: ChangeSet)
    requires Tied(sys) && id in sys.sets && cs.changes == sys.sets[id].changes
    requires sys.sets[id].status != Committed && cs.status != Committed && cs.status != Discarded
    ensures Tied(WithSet(sys, id, cs))
  {
  }

  lemma NewDraftTied(sys: System, id: SetId, cs: ChangeSet)
    requires Tied(sys) && id !in sys.sets && cs.changes == []
    ensures Tied(WithSet(sys, id, cs))
  {
  }

  lemma DiscardTied(sets: map<SetId, ChangeSet>, ps: map<nat, Proposal>, rs: map<nat, Review>, next: nat, id: SetId)
    requires SetsOk(sets, next) && ProposalsOk(sets, ps) && ReviewsOk(sets, rs)
    requires id in sets && sets[id].status != Committed
    ensures var now := sets[id := sets[id].(status := Discarded)];
            SetsOk(now, next) && ProposalsOk(now, ReturnedProposals(ps, id)) && ReviewsOk(now, ReturnedReviews(rs, id))
  {
    forall p | p in ps
      ensures ProposalOk(sets[id := sets[id].(status := Discarded)], ReturnedProposals(ps, id)[p])
    {
      assert ProposalOk(sets, ps[p]);
    }
    forall r | r in rs
      ensures ReviewOk(sets[id := sets[id].(status := Discarded)], r, ReturnedReviews(rs, id)[r])
    {
      assert ReviewOk(sets, r, rs[r]);
    }
  }

  lemma CommitTied(sets: map<SetId, ChangeSet>, ps: map<nat, Proposal>, rs: map<nat, Review>, next: nat, id: SetId, cs: ChangeSet)
    requires SetsOk(sets, next) && ProposalsOk(sets, ps) && ReviewsOk(sets, rs)
    requires id in sets && sets[id].status != Committed && cs.status == Committed && cs.changes == sets[id].changes
    ensures var now := sets[id := cs];
            SetsOk(now, next) && ProposalsOk(now, ReleasedProposals(ps, id)) && ReviewsOk(now, ReleasedReviews(rs, id))
  {
    forall p | p in ps
      ensures ProposalOk(sets[id := cs], ReleasedProposals(ps, id)[p])
    {
      assert ProposalOk(sets, ps[p]);
    }
    forall r | r in rs
      ensures ReviewOk(sets[id := cs], r, ReleasedReviews(rs, id)[r])
    {
      assert ReviewOk(sets, r, rs[r]);
    }
  }

  lemma SealTied(sets: map<SetId, ChangeSet>, ps: map<nat, Proposal>, rs: map<nat, Review>, next: nat, ids: seq<SetId>, version: int)
    requires SetsOk(sets, next) && ProposalsOk(sets, ps) && ReviewsOk(sets, rs)
    ensures var now := SealedSets(sets, ids, version);
            SetsOk(now, next) && ProposalsOk(now, ps) && ReviewsOk(now, rs)
  {
    forall p | p in ps
      ensures ProposalOk(SealedSets(sets, ids, version), ps[p])
    {
      assert ProposalOk(sets, ps[p]);
    }
    forall r | r in rs
      ensures ReviewOk(SealedSets(sets, ids, version), r, rs[r])
    {
      assert ReviewOk(sets, r, rs[r]);
    }
  }

  // ---- settling cases

  lemma ApproveProposalTied(sys: System, pid: nat, id: SetId, edit: Edit)
    requires Tied(sys) && pid in sys.proposals && id in sys.sets && sys.sets[id].status == Draft && edit.StationCreate?
    ensures var p := sys.proposals[pid];
            Tied(Appended(sys, id, p.station, edit, None, None)
                   .(proposals := sys.proposals[pid := p.(link := Link(CaseApproved, Some(id), Some(sys.nextChange)))]))
  {
    var p := sys.proposals[pid];
    AppendedTied(sys, id, p.station, edit, None, None);
    var changes := Appended(sys, id, p.station, edit, None, None).sets[id].changes;
    assert changes[|changes| - 1].id == sys.nextChange;
    assert CarriesStation(changes, sys.nextChange, p.station);
  }

  /** A case that waits, or was settled outside any draft, names no draft. */
  lemma ProposalStatusTied(sys: System, pid: nat, status: CaseStatus)
    requires Tied(sys) && pid in sys.proposals && sys.proposals[pid].link.set_.None? && sys.proposals[pid].link.change.None?
    requires status == CasePending || status == CaseRejected
    ensures Tied(sys.(proposals := sys.proposals[pid := sys.proposals[pid].(link := sys.proposals[pid].link.(status := status))]))
  {
  }

  lemma ReviewStatusTied(sys: System, rid: nat, status: CaseStatus)
    requires Tied(sys) && rid in sys.reviews && sys.reviews[rid].link.set_.None? && sys.reviews[rid].link.change.None?
    requires status == CasePending || status == CaseConfirmed
    ensures Tied(sys.(reviews := sys.reviews[rid := sys.reviews[rid].(link := sys.reviews[rid].link.(status := status))]))
  {
  }

  lemma CarriedTied(sys: System, rid: nat, id: SetId, cid: nat)
    requires Tied(sys) && rid in sys.reviews && id in sys.sets && sys.sets[id].status == Draft
    requires CarriesReview(sys.sets[id].changes, cid, rid)
    ensures Tied(Carried(sys, rid, id, cid))
  {
  }

  lemma ReviewActionTied(sys: System, rid: nat, id: SetId, key: Id, edit: Edit, base: Option<int>)
    requires Tied(sys) && rid in sys.reviews && id in sys.sets && sys.sets[id].status == Draft
    requires OnStop(edit) && (IsMerge(edit) ==> edit.into != key)
    ensures Tied(Carried(Appended(sys, id, key, edit, base, Some(rid)), rid, id, sys.nextChange))
  {
    AppendedTied(sys, id, key, edit, base, Some(rid));
    var now := Appended(sys, id, key, edit, base, Some(rid));
    var changes := now.sets[id].changes;
    assert changes[|changes| - 1].id == sys.nextChange;
    CarriedTied(now, rid, id, sys.nextChange);
  }

  lemma {:induction false} SplitChangesOk(live: Feed, sid: Id, minted: Id, routes: seq<Id>, rid: nat, next: nat)
    ensures |SplitChanges(live, sid, minted, routes, rid, next)| == |routes|
    ensures forall i | 0 <= i < |routes| ::
              SplitChanges(live, sid, minted, routes, rid, next)[i]
              == Change(next + i, routes[i], RowsReplace(Renamed(RowsOf(live.rows, routes[i]), sid, minted), Some(RowsOf(live.rows, routes[i]))),
                        None, Some(rid))
  {
    if routes != [] {
      SplitChangesOk(live, sid, minted, routes[..|routes| - 1], rid, next);
    }
  }

  /** Several changes are added for a review at once, the first one on a stop. */
  lemma ListTied(sys: System, rid: nat, id: SetId, more: seq<Change>)
    requires Tied(sys) && rid in sys.reviews && id in sys.sets && sys.sets[id].status == Draft
    requires more != [] && OnStop(more[0].edit) && more[0].review == Some(rid)
    requires ChangesOk(sys.sets[id].changes + more, sys.nextChange + |more|)
    ensures var cs := sys.sets[id];
            Tied(Carried(WithSet(sys, id, cs.(changes := cs.changes + more)).(nextChange := sys.nextChange + |more|),
                         rid, id, more[0].id))
  {
    var cs := sys.sets[id];
    AppendKeeps(cs.changes, more);
    TiedAfterDraftEdit(sys, id, cs.changes + more, sys.nextChange + |more|);
    assert (cs.changes + more)[|cs.changes|] == more[0];
    CarriedTied(WithSet(sys, id, cs.(changes := cs.changes + more)).(nextChange := sys.nextChange + |more|), rid, id, more[0].id);
  }

  lemma SplitListOk(sys: System, rid: nat, was: seq<Change>, routes: seq<Id>, position: Position, called: string, minted: Id)
    requires ChangesOk(was, sys.nextChange) && rid in sys.reviews
    ensures var added := SplitList(sys, rid, routes, position, called, minted);
            && |added| == 1 + |routes|
            && ChangesOk(was + added, sys.nextChange + |added|)
  {
    SplitChangesOk(sys.feed, sys.reviews[rid].stop, minted, routes, rid, sys.nextChange + 1);
    var added := SplitList(sys, rid, routes, position, called, minted);
    assert forall i | 0 <= i < |added| :: added[i].id == sys.nextChange + i && NotIntoItself(added[i]);
    assert forall i | |was| <= i < |was + added| :: (was + added)[i] == added[i - |was|];
  }

  lemma SplitTied(sys: System, u: User, rid: nat, id: SetId, routes: seq<Id>, position: Position, name: Option<string>, minted: Id)
    requires Tied(sys) && SplitReview(sys, u, rid, id, routes, position, name, minted).Done?
    ensures Tied(SplitReview(sys, u, rid, id, routes, position, name, minted).sys)
  {
    var called := if name.Some? && !Texts.Blank(name.value) then Texts.Stripped(name.value)
                  else sys.feed.stops[sys.reviews[rid].stop].name;
    SplitListOk(sys, rid, sys.sets[id].changes, routes, position, called, minted);
    ListTied(sys, rid, id, SplitList(sys, rid, routes, position, called, minted));
  }

  // ---- every run

  predicate EditEvent(e: Event) {
    e.ENewDraft? || e.EAdd? || e.EPut? || e.ERemove?
  }

  predicate StatusEvent(e: Event) {
    e.ESubmit? || e.EReopen? || e.EApprove? || e.EReject?
  }

  predicate EndEvent(e: Event) {
    e.ECommit? || e.EDiscard? || e.ESeal?
  }

  predicate ProposalEvent(e: Event) {
    e.EApproveProposal? || e.ERejectProposal? || e.EReopenProposal?
  }

  lemma EditStepTied(sys: System, e: Event)
    requires Tied(sys) && Accepted(sys, e) && EditEvent(e)
    ensures Tied(Next(sys, e))
  {
    match e
    case ENewDraft(u, id) => NewDraftTied(sys, id, Next(sys, e).sets[id]);
    case EAdd(u, id, key, edit, base, review) => AddTied(sys, u, id, key, edit, base, review);
    case EPut(u, id, cid, edit, base, review) => PutTied(sys, u, id, cid, edit, base, review);
    case ERemove(u, id, cid) => RemoveTied(sys, u, id, cid);
  }

  lemma StatusStepTied(sys: System, e: Event)
    requires Tied(sys) && Accepted(sys, e) && StatusEvent(e)
    ensures Tied(Next(sys, e))
  {
    hide Tied, Passes, Overtaken, Projected, AfterCommit;
    StatusTied(sys, e.id, Next(sys, e).sets[e.id]);
  }

  lemma EndStepTied(sys: System, e: Event)
    requires Tied(sys) && Accepted(sys, e) && EndEvent(e)
    ensures Tied(Next(sys, e))
  {
    match e
    case ECommit(u, id) =>
      CommitTied(sys.sets, sys.proposals, sys.reviews, sys.nextChange, id, CommittedSystem(sys, u, id).sets[id]);
    case EDiscard(u, id) =>
      DiscardTied(sys.sets, sys.proposals, sys.reviews, sys.nextChange, id);
    case ESeal(ids, version) =>
      SealTied(sys.sets, sys.proposals, sys.reviews, sys.nextChange, ids, version);
  }

  /** A proposal that is pending or rejected is in no draft. */
  lemma OpenProposalIsFree(sys: System, pid: nat)
    requires Tied(sys) && pid in sys.proposals
    requires sys.proposals[pid].link.status == CasePending || sys.proposals[pid].link.status == CaseRejected
    ensures sys.proposals[pid].link.set_.None? && sys.proposals[pid].link.change.None?
  {
  }

  lemma ProposalStepTied(sys: System, e: Event)
    requires Tied(sys) && Accepted(sys, e) && ProposalEvent(e)
    ensures Tied(Next(sys, e))
  {
    hide Tied, Passes, ProposalFits, Appended, Projected;
    match e
    case EApproveProposal(u, pid, id, name, position, members) =>
      var chosen := if members.Some? then members.value else sys.proposals[pid].members;
      ApproveProposalTied(sys, pid, id, StationCreate(Texts.Stripped(name), position, Some(MembersOf(chosen))));
    case ERejectProposal(u, pid, note) =>
      OpenProposalIsFree(sys, pid);
      ProposalStatusTied(sys, pid, CaseRejected);
    case EReopenProposal(u, pid) =>
      OpenProposalIsFree(sys, pid);
      ProposalStatusTied(sys, pid, CasePending);
  }

  /** A review that is pending or confirmed is in no draft. */
  lemma OpenReviewIsFree(sys: System, rid: nat)
    requires Tied(sys) && rid in sys.reviews
    requires sys.reviews[rid].link.status == CasePending || sys.reviews[rid].link.status == CaseConfirmed
    ensures sys.reviews[rid].link.set_.None? && sys.reviews[rid].link.change.None?
  {
  }

  lemma MoveReviewTied(sys: System, u: User, rid: nat, id: SetId, position: Position)
    requires Tied(sys) && MoveReview(sys, u, rid, id, position).Done?
    ensures Tied(MoveReview(sys, u, rid, id, position).sys)
  {
    hide Tied, Appended, Carried, Projected, MovesReview;
    var sid := sys.reviews[rid].stop;
    ReviewActionTied(sys, rid, id, sid, StopUpdate(None, Some(position), None), Some(sys.feed.stops[sid].version));
  }

  lemma MergeReviewTied(sys: System, u: User, rid: nat, id: SetId, into: Id, keepName: bool)
    requires Tied(sys) && MergeReview(sys, u, rid, id, into, keepName).Done?
    ensures Tied(MergeReview(sys, u, rid, id, into, keepName).sys)
  {
    hide Tied, Appended, Carried, Projected, MergeClash;
    var sid := sys.reviews[rid].stop;
    ReviewActionTied(sys, rid, id, sid, StopMerge(into, Keep(keepName, false), Some(sys.feed.stops[into].version)),
                     Some(sys.feed.stops[sid].version));
  }

  lemma ConfirmReviewTied(sys: System, u: User, rid: nat)
    requires Tied(sys)
    ensures ConfirmReview(sys, u, rid).Done? ==> Tied(ConfirmReview(sys, u, rid).sys)
    ensures ReopenReview(sys, u, rid).Done? ==> Tied(ReopenReview(sys, u, rid).sys)
  {
    hide Tied;
    if ConfirmReview(sys, u, rid).Done? {
      OpenReviewIsFree(sys, rid);
      ReviewStatusTied(sys, rid, CaseConfirmed);
    } else if ReopenReview(sys, u, rid).Done? {
      OpenReviewIsFree(sys, rid);
      ReviewStatusTied(sys, rid, CasePending);
    }
  }

  lemma ReviewStepTied(sys: System, e: Event)
    requires Tied(sys) && Accepted(sys, e)
    requires e.EMoveReview? || e.ESplitReview? || e.EMergeReview? || e.EConfirmReview? || e.EReopenReview?
    ensures Tied(Next(sys, e))
  {
    hide Tied, MoveReview, SplitReview, MergeReview, ConfirmReview, ReopenReview;
    match e
    case EMoveReview(u, rid, id, position) => MoveReviewTied(sys, u, rid, id, position);
    case ESplitReview(u, rid, id, routes, position, name, minted) =>
      SplitTied(sys, u, rid, id, routes, position, name, minted);
    case EMergeReview(u, rid, id, into, keepName) => MergeReviewTied(sys, u, rid, id, into, keepName);
    case EConfirmReview(u, rid) => ConfirmReviewTied(sys, u, rid);
    case EReopenReview(u, rid) => ConfirmReviewTied(sys, u, rid);
  }

  lemma StepTied(sys: System, e: Event)
    requires Tied(sys)
    ensures Tied(Next(sys, e))
  {
    if Accepted(sys, e) {
      if EditEvent(e) {
        EditStepTied(sys, e);
      } else if StatusEvent(e) {
        StatusStepTied(sys, e);
      } else if EndEvent(e) {
        EndStepTied(sys, e);
      } else if ProposalEvent(e) {
        ProposalStepTied(sys, e);
      } else {
        ReviewStepTied(sys, e);
      }
    }
  }

  /** In every reachable state the cases are tied to the drafts that carry them. */
  lemma {:induction false} RunTied(init: System, events: seq<Event>)
    requires Tied(init)
    ensures Tied(Run(init, events))
  {
    if events != [] {
      RunTied(init, events[..|events| - 1]);
      StepTied(Run(init, events[..|events| - 1]), events[|events| - 1]);
    }
  }
}
