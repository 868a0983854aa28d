/** Running the migration over its own output, and what it leaves as it found it. */
module Fixpoint {
  import opened Records
  import opened StageCut
  import opened StageChoice
  import opened Backfill

  lemma FlatRunAgain(k: Keyed, stage: Stage)
    ensures FlatRun(Again(k, stage), stage) == FlatRun(k, stage)
  {
  }

  lemma FlattenAgain(stages: StageTable, runs: seq<Keyed>, again: seq<Keyed>)
    requires ReadAgain(stages, runs, again)
    ensures Staged(again, stages) && Flatten(again, stages) == Flatten(runs, stages)
  {
    forall k | 0 <= k < |runs|
      ensures again[k].key in stages && FlatRun(again[k], stages[again[k].key]) == FlatRun(runs[k], stages[runs[k].key])
    {
      assert runs[k] in runs;
      FlatRunAgain(runs[k], stages[runs[k].key]);
    }
    assert FlatParts(again, stages) == FlatParts(runs, stages);
  }

  /** Rows written from a stage table stay as they are when they are written again. */
  lemma {:induction false} WrittenTwice(spine: Spine, stages: StageTable, listings: seq<Listing>)
    requires Staged(KeyAll(spine, listings), stages) && WellStaged(stages)
    ensures Staged(KeyAll(spine, Written(spine, stages, listings)), stages)
    ensures Written(spine, stages, Written(spine, stages, listings)) == Written(spine, stages, listings)
  {
    hide Again, Flatten, KeyRoute;
    if listings != [] {
      hide ReadAgain, WellStaged;
      var front, last := listings[..|listings| - 1], listings[|listings| - 1];
      WrittenTwice(spine, stages, front);
      RouteReadAgain(spine, last, stages);
      var next := Written(spine, stages, listings);
      assert next[..|next| - 1] == Written(spine, stages, front);
      FlattenAgain(stages, KeyRoute(spine, last), KeyRoute(spine, next[|next| - 1]));
    }
  }

  lemma AllStaged(pick: Pick, all: seq<Keyed>)
    ensures Staged(all, Stages(pick, all))
  {
  }

  lemma KeysReadAgain(stages: StageTable, runs: seq<Keyed>, again: seq<Keyed>)
    requires ReadAgain(stages, runs, again)
    ensures KeysOf(again) == KeysOf(runs)
  {
    forall i | 0 <= i < |runs|
      ensures again[i].key == runs[i].key && again[i] in again && runs[i] in runs
    {
    }
  }

  lemma StagesReadAgain(pick: Pick, runs: seq<Keyed>, again: seq<Keyed>)
    requires ReadAgain(Stages(pick, runs), runs, again)
    ensures Stages(pick, again) == Stages(pick, runs)
    ensures forall key | key in Stages(pick, again) :: |Lists(Group(again, key))| == 1
  {
    hide Group, Lists, ReadAgain, StageOf;
    KeysReadAgain(Stages(pick, runs), runs, again);
    forall key | key in Stages(pick, runs)
      ensures |Lists(Group(again, key))| == 1 && Group(again, key) != [] && StageOf(pick, again, key) == Stages(pick, runs)[key]
    {
      StageReadAgain(pick, runs, again, key);
    }
    var table := Stages(pick, again);
    assert forall key | key in table :: key in KeysOf(again);
    assert table.Keys == Stages(pick, runs).Keys;
    assert forall key | key in table :: table[key] == StageOf(pick, again, key);
  }

  /** The migration is a fixpoint of itself. Its own output cuts into the same runs with
      the same keys, makes the same stages, about which nothing disagrees any more, and
      is written as the same rows. */
  lemma BackfillIsAFixpoint(pick: Pick, spine: Spine, listings: seq<Listing>)
    ensures var all := KeyAll(spine, listings);
            var next := Rewritten(pick, spine, listings);
            && ReadAgain(Stages(pick, all), all, KeyAll(spine, next))
            && Stages(pick, KeyAll(spine, next)) == Stages(pick, all)
            && (forall key | key in Stages(pick, all) :: |Lists(Group(KeyAll(spine, next), key))| == 1)
            && Rewritten(pick, spine, next) == next
  {
    hide KeyAll, Stages, WellKeyed, WellStaged, Staged, ReadAgain, Written, Group, Lists;
    var all := KeyAll(spine, listings);
    AllWellKeyed(spine, listings);
    StagesAreWell(pick, all);
    AllStaged(pick, all);
    AllReadAgain(spine, Stages(pick, all), listings);
    StagesReadAgain(pick, all, KeyAll(spine, Rewritten(pick, spine, listings)));
    WrittenTwice(spine, Stages(pick, all), listings);
  }

  // ---- what the migration leaves as it was

  /** The same rows but for how their stages are spelled. */
  predicate SameButNames(rows: seq<StageRow>, rows': seq<StageRow>) {
    && |rows| == |rows'|
    && forall i | 0 <= i < |rows| :: rows[i].stageNo == rows'[i].stageNo && rows[i].at == rows'[i].at
  }

  predicate PartsSameButNames(parts: seq<seq<StageRow>>, parts': seq<seq<StageRow>>) {
    && |parts| == |parts'|
    && forall k | 0 <= k < |parts| :: SameButNames(parts[k], parts'[k])
  }

  lemma SameButNamesJoin(a: seq<StageRow>, a': seq<StageRow>, b: seq<StageRow>, b': seq<StageRow>)
    requires SameButNames(a, a') && SameButNames(b, b')
    ensures SameButNames(a + b, a' + b')
  {
  }

  lemma {:induction false} JoinedSameButNames(parts: seq<seq<StageRow>>, parts': seq<seq<StageRow>>)
    requires PartsSameButNames(parts, parts')
    ensures SameButNames(Joined(parts), Joined(parts'))
  {
    if parts != [] {
      hide SameButNames;
      var m := |parts| - 1;
      JoinedSameButNames(parts[..m], parts'[..m]);
      SameButNamesJoin(Joined(parts[..m]), Joined(parts'[..m]), parts[m], parts'[m]);
    }
  }

  lemma AddSameButNames(parts: seq<seq<StageRow>>, parts': seq<seq<StageRow>>, row: StageRow, row': StageRow)
    requires PartsSameButNames(parts, parts') && row.stageNo == row'.stageNo && row.at == row'.at
    ensures PartsSameButNames(Add(parts, row), Add(parts', row'))
  {
    assert parts != [] ==> SameButNames(parts[|parts| - 1], parts'[|parts| - 1]);
  }

  /** Rows are cut by their numbers alone. */
  lemma {:induction false} CutSameButNames(rows: seq<StageRow>, rows': seq<StageRow>)
    requires SameButNames(rows, rows')
    ensures PartsSameButNames(Cut(rows), Cut(rows'))
  {
    if rows != [] {
      var m := |rows| - 1;
      CutSameButNames(rows[..m], rows'[..m]);
      AddSameButNames(Cut(rows[..m]), Cut(rows'[..m]), rows[m], rows'[m]);
    }
  }

  /** A run is written as it stands exactly when its stage has the list it gives. */
  lemma FlatRunKeeps(k: Keyed, stage: Stage)
    requires OneNumber(k.run.rows) && k.run.rows[0].stageNo == k.run.stageNo
    ensures SameButNames(k.run.rows, FlatRun(k, stage)) <==> Stops(k.run) == stage.stops
  {
    if SameButNames(k.run.rows, FlatRun(k, stage)) {
      assert forall i | 0 <= i < |k.run.rows| :: Stops(k.run)[i] == FlatRun(k, stage)[i].at;
    }
  }

  /** A route keeps its rows, but for spelling, exactly when every one of its runs gives
      the list its stage has. */
  lemma RouteKept(spine: Spine, listing: Listing, stages: StageTable)
    requires Staged(KeyRoute(spine, listing), stages) && WellStaged(stages)
    ensures SameButNames(listing.rows, Flatten(KeyRoute(spine, listing), stages))
       <==> forall k | k in KeyRoute(spine, listing) :: Stops(k.run) == stages[k.key].stops
  {
    FlatIsWellCut(spine, listing, stages);
    RunsKept(spine, listing, stages);
    FlattenIs(KeyRoute(spine, listing), stages);
    hide *;
    PartsKept(listing.rows, FlatParts(KeyRoute(spine, listing), stages));
  }

  lemma FlattenIs(runs: seq<Keyed>, stages: StageTable)
    requires Staged(runs, stages)
    ensures Flatten(runs, stages) == Joined(FlatParts(runs, stages))
  {
  }

  /** Rows are the same, but for spelling, exactly when their parts are. */
  lemma PartsKept(rows: seq<StageRow>, flat: seq<seq<StageRow>>)
    requires WellCut(flat)
    ensures SameButNames(rows, Joined(flat)) <==> PartsSameButNames(Cut(rows), flat)
  {
    hide *;
    CutIsWellCut(rows);
    CutOfJoined(flat);
    if SameButNames(rows, Joined(flat)) {
      CutSameButNames(rows, Joined(flat));
    }
    if PartsSameButNames(Cut(rows), flat) {
      JoinedSameButNames(Cut(rows), flat);
    }
  }

  lemma RunsKept(spine: Spine, listing: Listing, stages: StageTable)
    requires Staged(KeyRoute(spine, listing), stages) && WellStaged(stages)
    ensures PartsSameButNames(Cut(listing.rows), FlatParts(KeyRoute(spine, listing), stages))
       <==> forall k | k in KeyRoute(spine, listing) :: Stops(k.run) == stages[k.key].stops
  {
    var runs := KeyRoute(spine, listing);
    KeyCount(spine, listing);
    assert |FlatParts(runs, stages)| == |runs|;
    hide KeyRoute, Cut, FlatParts, SameButNames, WellStaged, Stops, WellCut;
    forall k | 0 <= k < |runs|
      ensures SameButNames(Cut(listing.rows)[k], FlatParts(runs, stages)[k])
         <==> Stops(runs[k].run) == stages[runs[k].key].stops
    {
      RunKept(spine, listing, stages, k);
    }
  }

  lemma RunKept(spine: Spine, listing: Listing, stages: StageTable, k: nat)
    requires Staged(KeyRoute(spine, listing), stages) && k < |KeyRoute(spine, listing)|
    ensures k < |Cut(listing.rows)|
    ensures SameButNames(Cut(listing.rows)[k], FlatParts(KeyRoute(spine, listing), stages)[k])
       <==> Stops(KeyRoute(spine, listing)[k].run) == stages[KeyRoute(spine, listing)[k].key].stops
  {
    KeyCount(spine, listing);
    KeyAt(spine, listing, k);
    hide KeyRoute, Cut, WellCut, SameButNames, Stops, Canon, PairWithSpine, OneNumber;
    assert OneNumber(Cut(listing.rows)[k]);
    FlatRunKeeps(KeyRoute(spine, listing)[k], stages[KeyRoute(spine, listing)[k].key]);
  }

  predicate AllSameButNames(listings: seq<Listing>, listings': seq<Listing>) {
    && |listings| == |listings'|
    && forall i | 0 <= i < |listings| :: SameButNames(listings[i].rows, listings'[i].rows)
  }

  predicate AsStaged(stages: StageTable, runs: seq<Keyed>)
    requires Staged(runs, stages)
  {
    forall k | k in runs :: Stops(k.run) == stages[k.key].stops
  }

  lemma {:induction false} AllKept(spine: Spine, stages: StageTable, listings: seq<Listing>)
    requires Staged(KeyAll(spine, listings), stages) && WellStaged(stages)
    ensures |Written(spine, stages, listings)| == |listings|
    ensures AllSameButNames(listings, Written(spine, stages, listings)) <==> AsStaged(stages, KeyAll(spine, listings))
  {
    hide KeyRoute, Flatten, SameButNames, WellStaged, Stops;
    if listings != [] {
      var m := |listings| - 1;
      AllKept(spine, stages, listings[..m]);
      RouteKept(spine, listings[m], stages);
      var next := Written(spine, stages, listings);
      assert next[..m] == Written(spine, stages, listings[..m]);
      assert AllSameButNames(listings, next)
        <==> AllSameButNames(listings[..m], next[..m]) && SameButNames(listings[m].rows, next[m].rows);
    }
  }

  /** Every run has its stage's list exactly when each stage was given one list. */
  lemma AsStagedIsAgreed(pick: Pick, all: seq<Keyed>)
    ensures Staged(all, Stages(pick, all))
    ensures AsStaged(Stages(pick, all), all) <==> forall key | key in Stages(pick, all) :: |Lists(Group(all, key))| == 1
  {
    AllStaged(pick, all);
    hide Lists, Group, Chosen, Stops, Staged;
    forall key | key in Stages(pick, all)
      ensures |Lists(Group(all, key))| == 1
         <==> forall k | k in all && k.key == key :: Stops(k.run) == Stages(pick, all)[key].stops
    {
      AgreedStage(pick, all, key);
    }
    hide Stages;
  }

  lemma AgreedStage(pick: Pick, all: seq<Keyed>, key: StageKey)
    requires key in Stages(pick, all)
    ensures |Lists(Group(all, key))| == 1
       <==> forall k | k in all && k.key == key :: Stops(k.run) == Stages(pick, all)[key].stops
  {
    var group, stops := Group(all, key), Stages(pick, all)[key].stops;
    RunGroups(all, key);
    GroupRuns(all, key);
    AgreedExactly(group);
    ChoiceIsOptimal(pick, group);
    hide Lists, Group, Chosen, Stops, Stages;
    forall i | 0 <= i < |group|
      ensures group[i] in all && group[i].key == key
    {
      assert group[i] in group;
    }
    assert forall k | k in all && k.key == key :: k in group;
  }

  /** The migration changes nothing but spelling exactly when no stage was disagreed on. */
  lemma KeepsWhatIsAgreed(pick: Pick, spine: Spine, listings: seq<Listing>)
    ensures AllSameButNames(listings, Rewritten(pick, spine, listings))
       <==> forall key | key in Stages(pick, KeyAll(spine, listings)) ::
              |Lists(Group(KeyAll(spine, listings), key))| == 1
  {
    hide KeyAll, Stages, WellKeyed, WellStaged, Staged, AsStaged, Written, Group, Lists, AllSameButNames;
    var all := KeyAll(spine, listings);
    AllWellKeyed(spine, listings);
    StagesAreWell(pick, all);
    AllStaged(pick, all);
    AllKept(spine, Stages(pick, all), listings);
    AsStagedIsAgreed(pick, all);
  }

  // ---- the script's loops

  /** Goes through the routes, giving every run its key. */
  method KeyRoutes(spine: Spine, listings: seq<Listing>) returns (all: seq<Keyed>, routes: seq<seq<Keyed>>)
    ensures all == KeyAll(spine, listings)
    ensures |routes| == |listings| && forall i | 0 <= i < |routes| :: routes[i] == KeyRoute(spine, listings[i])
  {
    all, routes := [], [];
    assert listings[..0] == [];
    for i := 0 to |listings|
      invariant all == KeyAll(spine, listings[..i])
      invariant |routes| == i && forall j | 0 <= j < i :: routes[j] == KeyRoute(spine, listings[j])
    {
      hide *;
      var runs := CutRuns(listings[i].route, listings[i].rows);
      var keyed := KeyRuns(spine, listings[i].route, runs);
      KeyNext(spine, listings, i);
      all, routes := all + keyed, routes + [keyed];
    }
    assert listings[..|listings|] == listings;
  }

  lemma KeyNext(spine: Spine, listings: seq<Listing>, i: nat)
    requires i < |listings|
    ensures KeyAll(spine, listings[..i + 1]) == KeyAll(spine, listings[..i]) + KeyRoute(spine, listings[i])
    ensures KeyRoute(spine, listings[i]) == KeyRuns(spine, listings[i].route, Stretches(listings[i].route, listings[i].rows))
  {
    hide KeyRuns;
    assert listings[..i + 1][..i] == listings[..i];
  }

  /** The stage of one group and what its choice costs. */
  method ChooseOne(pick: Pick, ghost all: seq<Keyed>, groups: map<StageKey, seq<Keyed>>, names: map<StageKey, string>, key: StageKey)
    returns (stage: Stage, cost: nat)
    requires Grouped(all, groups, names) && key in groups
    ensures Group(all, key) != [] && stage == StageOf(pick, all, key) && cost == Impact(stage.stops, Group(all, key))
  {
    hide Chosen, Group, RunCosts, Impact, Ahead, RankOf;
    var stops;
    stops, cost := Choose(pick, groups[key]);
    stage := Stage(key, names[key], stops);
  }

  /** Groups the runs, chooses the stops of each group and sums what that costs. */
  method ChooseStages(pick: Pick, all: seq<Keyed>) returns (stages: StageTable, impact: map<StageKey, nat>)
    ensures stages == Stages(pick, all) && impact == Impacts(all, stages)
  {
    hide Grouped, StageOf, Group, Impact;
    var groups, names := GroupStages(all);
    stages, impact := map[], map[];
    var left := groups.Keys;
    while left != {}
      invariant left <= groups.Keys && stages.Keys == impact.Keys == groups.Keys - left
      invariant forall key | key in stages :: Group(all, key) != [] && stages[key] == StageOf(pick, all, key)
      invariant forall key | key in stages :: impact[key] == Impact(stages[key].stops, Group(all, key))
    {
      var key :| key in left;
      var stage, cost := ChooseOne(pick, all, groups, names, key);
      stages, impact, left := stages[key := stage], impact[key := cost], left - {key};
    }
    GroupedKeys(pick, all, groups, names);
  }

  lemma GroupedKeys(pick: Pick, all: seq<Keyed>, groups: map<StageKey, seq<Keyed>>, names: map<StageKey, string>)
    requires Grouped(all, groups, names)
    ensures groups.Keys == Stages(pick, all).Keys
    ensures forall key | key in groups :: Group(all, key) != [] && Stages(pick, all)[key] == StageOf(pick, all, key)
  {
    hide Group, StageOf;
    KeysAreGrouped(pick, all);
    var table := Stages(pick, all);
    forall key
      ensures key in groups <==> key in table
    {
      assert key in table <==> Group(all, key) != [];
    }
  }

  lemma KeysAreGrouped(pick: Pick, all: seq<Keyed>)
    ensures forall key {:trigger Group(all, key)} :: key in Stages(pick, all) <==> Group(all, key) != []
  {
    forall key {:trigger Group(all, key)}
      ensures key in Stages(pick, all) <==> Group(all, key) != []
    {
      GroupRuns(all, key);
      if Group(all, key) != [] {
        assert Group(all, key)[0] in Group(all, key);
      }
      if key in Stages(pick, all) {
        RunGroups(all, key);
      }
    }
  }
}
