/** What every run of calls keeps about the live feed. */
module Runs {
  import opened Records
  import opened Replay
  import opened Validation
  import opened Conflicts
  import opened Integrity
  import opened Merges
  import opened Drafts
  import opened Cases
  import opened Steps
  import opened Lifecycle

  /** The draft commits now: it has neither conflicts nor errors. */
  predicate Commits(sys: System, e: Event) {
    e.ECommit? && Accepted(sys, e)
  }

  /** Only a commit changes the live feed, and then by the draft's changes. */
  lemma OnlyCommitsPublish(sys: System, e: Event)
    ensures Next(sys, e).feed == if Commits(sys, e) then AfterCommit(sys.feed, sys.sets[e.id].changes) else sys.feed
  {
    hide Passes, Overtaken, AddProblem, Projected, AfterCommit, SplitList, Splittable, InUse, ProposalFits;
  }

  lemma CommitIsChecked(sys: System, e: Event)
    requires Commits(sys, e)
    ensures e.ECommit? && e.id in sys.sets
    ensures Valid(sys.feed, sys.sets[e.id].changes, ReviewStops(sys.reviews))
    ensures SetConflicts(sys.feed, sys.sets[e.id].changes) == []
  {
  }

  // ---- versions

  lemma StepEvolves(sys: System, e: Event)
    ensures Evolves(sys.feed, Next(sys, e).feed)
  {
    OnlyCommitsPublish(sys, e);
    if Commits(sys, e) {
      CommitEvolves(sys.feed, sys.sets[e.id].changes);
    }
  }

  lemma {:induction false} RunEvolves(init: System, events: seq<Event>)
    ensures Evolves(init.feed, Run(init, events).feed)
  {
    if events != [] {
      var front := events[..|events| - 1];
      RunEvolves(init, front);
      StepEvolves(Run(init, front), events[|events| - 1]);
      EvolvesTransitive(init.feed, Run(init, front).feed, Run(init, events).feed);
    }
  }

  /** Over a whole run an id and a version name one record: two states that both hold
      the stop, or the route, under one version hold the same one. */
  lemma VersionNamesContent(init: System, events: seq<Event>, j: nat, k: nat, id: Id)
    requires j <= k <= |events|
    ensures var a, b := Run(init, events[..j]).feed, Run(init, events[..k]).feed;
            && (id in a.stops && id in b.stops && a.stops[id].version == b.stops[id].version ==> a.stops[id] == b.stops[id])
            && (id in a.routes && id in b.routes && a.routes[id].version == b.routes[id].version ==> a.routes[id] == b.routes[id])
  {
    RunAppend(init, events[..j], events[j..k]);
    assert events[..j] + events[j..k] == events[..k];
    RunEvolves(Run(init, events[..j]), events[j..k]);
  }

  /** A draft that commits applies each change to exactly what its base version named
      at any earlier time of the run, and each stop list to its base rows. */
  lemma CommitLosesNoUpdate(init: System, events: seq<Event>, j: nat, n: nat, i: nat)
    requires j <= n < |events| && Commits(Run(init, events[..n]), events[n])
    requires events[n].id in Run(init, events[..n]).sets
    requires i < |Run(init, events[..n]).sets[events[n].id].changes|
    ensures var now := Run(init, events[..n]);
            MadeAgainst(Run(init, events[..j]).feed, now.feed, now.sets[events[n].id].changes, i)
  {
    hide *;
    var now := Run(init, events[..n]);
    CommitIsChecked(now, events[n]);
    RunAppend(init, events[..j], events[j..n]);
    assert events[..j] + events[j..n] == events[..n];
    RunEvolves(Run(init, events[..j]), events[j..n]);
    NoLostUpdate(Run(init, events[..j]).feed, now.feed, now.sets[events[n].id].changes, i);
  }

  // ---- integrity

  /** If the event commits a draft, the draft leaves nothing stranded. */
  predicate StrandsNothing(sys: System, e: Event) {
    Commits(sys, e) ==> e.id in sys.sets && Stranded(sys.feed, sys.sets[e.id].changes) == {}
  }

  ghost predicate NothingStranded(init: System, events: seq<Event>) {
    forall n | 0 <= n < |events| :: StrandsNothing(Run(init, events[..n]), events[n])
  }

  ghost predicate AlwaysIntact(init: System, events: seq<Event>) {
    forall n | 0 <= n <= |events| :: Intact(Run(init, events[..n]).feed)
  }

  /** From an intact feed every state of a run has every row on an existing, undeleted
      stop that is not a station if and only if no commit of the run leaves a call
      stranded. */
  lemma {:induction false} RunIntegrityIsExact(init: System, events: seq<Event>)
    requires Intact(init.feed)
    ensures AlwaysIntact(init, events) <==> NothingStranded(init, events)
  {
    hide *;
    if events == [] {
      NoEvents(init);
    } else {
      var front, e := events[..|events| - 1], events[|events| - 1];
      RunIntegrityIsExact(init, front);
      IntactFront(init, events);
      StrandedFront(init, events);
      if AlwaysIntact(init, front) {
        IntactLast(init, front);
        StepIntegrityIsExact(Run(init, front), e);
      }
    }
  }

  /** One call keeps integrity exactly when it strands nothing. */
  lemma StepIntegrityIsExact(sys: System, e: Event)
    requires Intact(sys.feed)
    ensures Intact(Next(sys, e).feed) <==> StrandsNothing(sys, e)
  {
    hide Next, Accepted, AfterCommit, Valid, SetConflicts, Intact, Stranded, ReviewStops;
    OnlyCommitsPublish(sys, e);
    if Commits(sys, e) {
      CommitIsChecked(sys, e);
      IntegrityIsExact(sys.feed, sys.sets[e.id].changes, ReviewStops(sys.reviews));
    }
  }

  lemma NoEvents(init: System)
    requires Intact(init.feed)
    ensures AlwaysIntact(init, []) && NothingStranded(init, [])
  {
    hide Intact;
    var none: seq<Event> := [];
    assert none[..0] == none && Run(init, none) == init;
  }

  lemma IntactFront(init: System, events: seq<Event>)
    requires events != []
    ensures var front, e := events[..|events| - 1], events[|events| - 1];
            AlwaysIntact(init, events) <==> AlwaysIntact(init, front) && Intact(Next(Run(init, front), e).feed)
  {
    var front, e := events[..|events| - 1], events[|events| - 1];
    assert events[..|events|] == events && Run(init, events) == Next(Run(init, front), e);
    hide Intact, Run, Next;
    forall n | 0 <= n <= |front|
      ensures front[..n] == events[..n]
    {
    }
    if AlwaysIntact(init, events) {
      assert Intact(Run(init, events[..|events|]).feed);
      forall n | 0 <= n <= |front|
        ensures Intact(Run(init, front[..n]).feed)
      {
        assert Intact(Run(init, events[..n]).feed);
      }
    }
    if AlwaysIntact(init, front) && Intact(Next(Run(init, front), e).feed) {
      forall n | 0 <= n <= |events|
        ensures Intact(Run(init, events[..n]).feed)
      {
        if n <= |front| {
          assert Intact(Run(init, front[..n]).feed);
        } else {
          assert events[..n] == events;
        }
      }
    }
  }

  lemma StrandedFront(init: System, events: seq<Event>)
    requires events != []
    ensures var front, e := events[..|events| - 1], events[|events| - 1];
            NothingStranded(init, events) <==> NothingStranded(init, front) && StrandsNothing(Run(init, front), e)
  {
    hide StrandsNothing, Run;
    var front, e := events[..|events| - 1], events[|events| - 1];
    forall n | 0 <= n < |front|
      ensures front[..n] == events[..n] && front[n] == events[n]
    {
    }
    if NothingStranded(init, events) {
      assert StrandsNothing(Run(init, events[..|front|]), events[|front|]);
      forall n | 0 <= n < |front|
        ensures StrandsNothing(Run(init, front[..n]), front[n])
      {
        assert StrandsNothing(Run(init, events[..n]), events[n]);
      }
    }
    if NothingStranded(init, front) && StrandsNothing(Run(init, front), e) {
      forall n | 0 <= n < |events|
        ensures StrandsNothing(Run(init, events[..n]), events[n])
      {
        if n < |front| {
          assert StrandsNothing(Run(init, front[..n]), front[n]);
        } else {
          assert events[..n] == front;
        }
      }
    }
  }

  lemma IntactLast(init: System, events: seq<Event>)
    requires AlwaysIntact(init, events)
    ensures Intact(Run(init, events).feed)
  {
    hide Intact, Run;
    assert events[..|events|] == events;
  }

  /** If the event commits a draft, its merges replay under their guard. */
  ghost predicate GuardedAt(sys: System, e: Event) {
    Commits(sys, e) ==> e.id in sys.sets && EveryMoveSafe(sys.feed, sys.sets[e.id].changes)
  }

  ghost predicate Guarded(init: System, events: seq<Event>) {
    forall n | 0 <= n < |events| :: GuardedAt(Run(init, events[..n]), events[n])
  }

  /** So the guard, holding of every merge committed, is enough. */
  lemma RunKeepsIntegrity(init: System, events: seq<Event>)
    requires Intact(init.feed) && Guarded(init, events)
    ensures AlwaysIntact(init, events)
  {
    hide Intact, Run, GuardedAt, StrandsNothing, AlwaysIntact;
    forall n | 0 <= n < |events|
      ensures StrandsNothing(Run(init, events[..n]), events[n])
    {
      assert GuardedAt(Run(init, events[..n]), events[n]);
      GuardedStrandsNothing(Run(init, events[..n]), events[n]);
    }
    RunIntegrityIsExact(init, events);
  }

  lemma GuardedStrandsNothing(sys: System, e: Event)
    requires GuardedAt(sys, e)
    ensures StrandsNothing(sys, e)
  {
    hide Commits, EveryMoveSafe, Stranded;
    if Commits(sys, e) {
      CommitIsChecked(sys, e);
      SafeDraftStrandsNothing(sys.feed, sys.sets[e.id].changes);
    }
  }

  // ---- the forest of merges

  /** How many merges the run's commits published. */
  function MergesPublished(init: System, events: seq<Event>): nat {
    if events == [] then 0 else
      var s, e := Run(init, events[..|events| - 1]), events[|events| - 1];
      MergesPublished(init, events[..|events| - 1])
      + (if Commits(s, e) && e.id in s.sets then MergeCount(s.sets[e.id].changes) else 0)
  }

  /** Over every run the merge pointers stay a forest, no deeper than it was by more
      than the merges published. */
  lemma {:induction false} RunKeepsForest(init: System, events: seq<Event>, n: nat)
    requires Tied(init) && Forest(init.feed.stops, n)
    ensures Forest(Run(init, events).feed.stops, n + MergesPublished(init, events))
  {
    hide Next, Accepted, AfterCommit, Valid, SetConflicts, Forest, Tied, ReviewStops;
    if events != [] {
      var front := events[..|events| - 1];
      var s, e := Run(init, front), events[|events| - 1];
      RunKeepsForest(init, front, n);
      RunTied(init, front);
      OnlyCommitsPublish(s, e);
      if Commits(s, e) {
        CommitIsChecked(s, e);
        NoSelfMerges(s, e.id);
        CommitKeepsForest(s.feed, s.sets[e.id].changes, ReviewStops(s.reviews), n + MergesPublished(init, front));
      }
    }
  }

  lemma NoSelfMerges(sys: System, id: SetId)
    requires Tied(sys) && id in sys.sets
    ensures forall i | 0 <= i < |sys.sets[id].changes| :: NotIntoItself(sys.sets[id].changes[i])
  {
  }
}
