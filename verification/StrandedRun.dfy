/** A run of the editor that ends with a row calling at a station: a merge is added into
    a stop, edited to go into a station, and then submitted, approved and committed. */
module StrandedRun {
  import opened Records
  import opened Replay
  import opened Findings
  import opened Validation
  import opened Conflicts
  import opened Integrity
  import opened Drafts
  import opened Steps
  import opened Lifecycle

  const Author := User("author", Editor)
  const Checker := User("checker", Approver)
  const Keeps := Keep(false, false)

  function Merge(into: Id): Change {
    Change(1, "A", StopMerge(into, Keeps, None), Some(1), None)
  }

  /** The editor with no draft yet. */
  function Start(): System {
    System(OneCall(), 1, map[], map[], map[], 1)
  }

  function Holding(cs: ChangeSet, next: nat): System {
    System(OneCall(), 1, map["d" := cs], map[], map[], next)
  }

  function Empty(): ChangeSet {
    ChangeSet(Draft, [], "author", None, None, None, false, None)
  }

  function With(into: Id): ChangeSet {
    Empty().(changes := [Merge(into)])
  }

  function Sent(): ChangeSet {
    With("S").(status := Submitted, submittedBy := Some("author"))
  }

  function Passed(): ChangeSet {
    Sent().(status := Approved, reviewedBy := Some("checker"))
  }

  function Calls(): seq<Event> {
    [ENewDraft(Author, "d"),
     EAdd(Author, "d", "A", StopMerge("B", Keeps, None), None, None),
     EPut(Author, "d", 1, StopMerge("S", Keeps, None), None, None),
     ESubmit(Author, "d"),
     EApprove(Checker, "d", false),
     ECommit(Checker, "d")]
  }

  lemma Opened()
    ensures Step(Start(), Calls()[0]) == Done(Holding(Empty(), 1))
  {
  }

  lemma MergeFits()
    ensures AddProblem(OneCall(), [], "A", StopMerge("B", Keeps, None), None) == None
  {
    ProjectedNothing(OneCall());
    hide Projected;
  }

  lemma Added()
    ensures Step(Holding(Empty(), 1), Calls()[1]) == Done(Holding(With("B"), 2))
  {
    MergeFits();
    hide AddProblem;
    assert LiveVersion(OneCall(), "A", StopMerge("B", Keeps, None)) == Some(1);
    hide OneCall;
    assert Empty().changes + [Merge("B")] == With("B").changes;
    assert map["d" := Empty()]["d" := With("B")] == map["d" := With("B")];
  }

  lemma Edited()
    ensures Step(Holding(With("B"), 2), Calls()[2]) == Done(Holding(With("S"), 2))
  {
    var changes := With("B").changes;
    assert IndexOf(changes, 1) == 0;
    assert changes[0 := Merge("S")] == With("S").changes;
    hide OneCall;
  }

  lemma NoConflicts(live: Feed, ch: Change)
    requires ChangeConflicts(live, Projected(live, []), ch) == []
    ensures SetConflicts(live, [ch]) == []
  {
    hide ChangeConflicts, Projected;
    assert [ch][..0] == [] && ConflictsUpTo(live, [ch], 0) == [];
    assert ConflictsUpTo(live, [ch], 1) == [] + ChangeConflicts(live, Projected(live, []), ch);
  }

  lemma DraftPasses()
    ensures Valid(OneCall(), [Merge("S")], ReviewStops(map[])) && SetConflicts(OneCall(), [Merge("S")]) == []
  {
    assert ReviewStops(map[]) == map[];
    assert ChangeConflicts(OneCall(), Projected(OneCall(), []), Merge("S")) == [] by {
      hide Projected;
    }
    hide *;
    MergeIntoStationStrands(Merge("S"));
    NoConflicts(OneCall(), Merge("S"));
  }

  lemma SentThrough()
    ensures Step(Holding(With("S"), 2), Calls()[3]) == Done(Holding(Sent(), 2))
    ensures Step(Holding(Sent(), 2), Calls()[4]) == Done(Holding(Passed(), 2))
    ensures Step(Holding(Passed(), 2), Calls()[5]).Done?
    ensures Step(Holding(Passed(), 2), Calls()[5]).sys.feed == AfterCommit(OneCall(), [Merge("S")])
  {
    DraftPasses();
    hide Valid, SetConflicts, AfterCommit, OneCall;
  }

  function States(): seq<System> {
    [Start(), Holding(Empty(), 1), Holding(With("B"), 2), Holding(With("S"), 2), Holding(Sent(), 2), Holding(Passed(), 2),
     Next(Holding(Passed(), 2), ECommit(Checker, "d"))]
  }

  lemma CallsLead()
    ensures Leads(States(), Calls())
  {
    Opened();
    Added();
    Edited();
    SentThrough();
    hide Start, Holding, Step;
  }

  lemma StartsWhole()
    ensures Intact(Start().feed) && Tied(Start())
  {
    MergeIntoStationStrands(Merge("S"));
    hide Intact;
  }

  /** Every call is accepted, by users allowed to make it, and the feed is left broken. */
  lemma RunStrandsACall()
    ensures Intact(Start().feed) && Tied(Start())
    ensures forall n | 0 <= n < |Calls()| :: Accepted(Run(Start(), Calls()[..n]), Calls()[n])
    ensures !Intact(Run(Start(), Calls()).feed)
  {
    assert States()[0] == Start() && States()[|Calls()|].feed == AfterCommit(OneCall(), [Merge("S")]) by {
      SentThrough();
      hide OneCall, Holding, AfterCommit, Step;
    }
    hide *;
    StartsWhole();
    CallsLead();
    RunAlong(States(), Calls());
    MergeIntoStationStrands(Merge("S"));
  }
}
