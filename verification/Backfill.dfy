/** The migration that writes every route's rows from the stages the routes share. */
module Backfill {
  import opened Records
  import opened StageCut
  import opened StageChoice

  /** One fare stage of the replica: what it calls it and the id of its first stop. */
  datatype Head = Head(name: string, stop: string)

  datatype Replica = Replica(direction: Option<string>, heads: seq<Head>)

  type Spine = map<Id, Replica>

  datatype Listing = Listing(route: Id, rows: seq<StageRow>)

  function ReplicaOf(spine: Spine, route: Id): Replica {
    if route in spine then spine[route] else Replica(None, [])
  }

  /** The replica's stages by position, where it counts as many as we do. */
  function PairWithSpine(count: nat, heads: seq<Head>): seq<Option<Head>> {
    seq(count, k requires 0 <= k < count => if heads != [] && |heads| == count then Some(heads[k]) else None)
  }

  function StageKeyOf(run: Stretch, head: Option<Head>, direction: Option<string>): Keyed {
    if head.Some? then Keyed(run, Mtc(head.value.stop, direction), head.value.name)
    else Keyed(run, Named(run.name, direction), run.name)
  }

  function KeyRuns(spine: Spine, route: Id, runs: seq<Stretch>): seq<Keyed> {
    var replica := ReplicaOf(spine, route);
    var paired := PairWithSpine(|runs|, replica.heads);
    seq(|runs|, k requires 0 <= k < |runs| => StageKeyOf(runs[k], paired[k], replica.direction))
  }

  function KeyRoute(spine: Spine, listing: Listing): seq<Keyed> {
    KeyRuns(spine, listing.route, Stretches(listing.route, listing.rows))
  }

  /** The runs of every route, route after route. */
  function KeyAll(spine: Spine, listings: seq<Listing>): seq<Keyed> {
    if listings == [] then [] else
      KeyAll(spine, listings[..|listings| - 1]) + KeyRoute(spine, listings[|listings| - 1])
  }

  type StageTable = map<StageKey, Stage>

  function KeysOf(all: seq<Keyed>): set<StageKey> {
    set k | k in all :: k.key
  }

  function Stages(pick: Pick, all: seq<Keyed>): StageTable {
    map key | key in KeysOf(all) :: RunGroups(all, key); StageOf(pick, all, key)
  }

  lemma RunGroups(all: seq<Keyed>, key: StageKey)
    requires key in KeysOf(all)
    ensures Group(all, key) != []
  {
    var k :| k in all && k.key == key;
    GroupRuns(all, key);
    var i :| 0 <= i < |all| && all[i] == k;
    assert all[i] in Group(all, key);
  }

  function Impacts(all: seq<Keyed>, stages: StageTable): map<StageKey, nat> {
    map key | key in stages :: Impact(stages[key].stops, Group(all, key))
  }

  predicate Staged(runs: seq<Keyed>, stages: StageTable) {
    forall k | k in runs :: k.key in stages
  }

  /** A run as its stage has it: its own number, and the stage's name and stops. */
  function FlatRun(k: Keyed, stage: Stage): seq<StageRow> {
    seq(|stage.stops|, i requires 0 <= i < |stage.stops| => StageRow(k.run.stageNo, stage.name, stage.stops[i]))
  }

  function FlatParts(runs: seq<Keyed>, stages: StageTable): seq<seq<StageRow>>
    requires Staged(runs, stages)
  {
    seq(|runs|, k requires 0 <= k < |runs| => FlatRun(runs[k], stages[runs[k].key]))
  }

  /** What a route's rows become. */
  function Flatten(runs: seq<Keyed>, stages: StageTable): seq<StageRow>
    requires Staged(runs, stages)
  {
    Joined(FlatParts(runs, stages))
  }

  /** Every route with its rows written from its stages. */
  function Written(spine: Spine, stages: StageTable, listings: seq<Listing>): seq<Listing>
    requires Staged(KeyAll(spine, listings), stages)
  {
    if listings == [] then [] else
      var last := listings[|listings| - 1];
      Written(spine, stages, listings[..|listings| - 1])
      + [Listing(last.route, Flatten(KeyRoute(spine, last), stages))]
  }

  function Rewritten(pick: Pick, spine: Spine, listings: seq<Listing>): seq<Listing> {
    Written(spine, Stages(pick, KeyAll(spine, listings)), listings)
  }

  // ---- what a key says of a run

  /** A run is never empty, and one kept under its own name is shown by it. */
  predicate WellKeyed(k: Keyed) {
    && k.run.rows != []
    && (k.key.Named? ==> k.key.name == k.run.name && k.shown == k.run.name && Canon(k.run.name) == k.run.name)
  }

  lemma RunWellKeyed(spine: Spine, listing: Listing, k: nat)
    requires k < |KeyRoute(spine, listing)|
    ensures WellKeyed(KeyRoute(spine, listing)[k])
  {
    KeyCount(spine, listing);
    KeyAt(spine, listing, k);
    hide KeyRoute, Cut, Canon, WellCut, PairWithSpine;
    CanonTwice(Cut(listing.rows)[k][0].stageName);
  }

  lemma RouteWellKeyed(spine: Spine, listing: Listing)
    ensures forall k | k in KeyRoute(spine, listing) :: WellKeyed(k)
  {
    hide KeyRoute, WellKeyed;
    forall k | 0 <= k < |KeyRoute(spine, listing)|
      ensures WellKeyed(KeyRoute(spine, listing)[k])
    {
      RunWellKeyed(spine, listing, k);
    }
  }

  lemma {:induction false} AllWellKeyed(spine: Spine, listings: seq<Listing>)
    ensures forall k | k in KeyAll(spine, listings) :: WellKeyed(k)
  {
    hide KeyRoute, WellKeyed;
    if listings != [] {
      AllWellKeyed(spine, listings[..|listings| - 1]);
      RouteWellKeyed(spine, listings[|listings| - 1]);
    }
  }

  /** A stage has stops, and one known by its name carries that name. */
  predicate WellStaged(stages: StageTable) {
    forall key | key in stages ::
      && stages[key].stops != []
      && (key.Named? ==> stages[key].name == key.name && Canon(key.name) == key.name)
  }

  lemma StagesAreWell(pick: Pick, all: seq<Keyed>)
    requires forall k | k in all :: WellKeyed(k)
    ensures WellStaged(Stages(pick, all))
  {
    forall key | key in Stages(pick, all)
      ensures Stages(pick, all)[key].stops != []
      ensures key.Named? ==> Stages(pick, all)[key].name == key.name && Canon(key.name) == key.name
    {
      hide Chosen, Group, Canon;
      RunGroups(all, key);
      var group := Group(all, key);
      GroupRuns(all, key);
      assert group[0] in group;
      ChoiceIsOptimal(pick, group);
      var i :| 0 <= i < |group| && Stops(group[i].run) == Chosen(pick, group);
      assert group[i] in group;
      assert Stops(group[i].run)[0] == group[i].run.rows[0].at;
    }
  }

  // ---- reading the rewritten rows back

  /** What a run is once its rows are written from its stage and cut again. */
  function Again(k: Keyed, stage: Stage): Keyed {
    Keyed(Stretch(k.run.route, k.run.position, k.run.stageNo, Canon(stage.name), FlatRun(k, stage)), k.key, k.shown)
  }

  predicate ReadAgain(stages: StageTable, runs: seq<Keyed>, again: seq<Keyed>) {
    && |again| == |runs|
    && Staged(runs, stages)
    && forall k | 0 <= k < |runs| :: again[k] == Again(runs[k], stages[runs[k].key])
  }

  lemma KeyAt(spine: Spine, listing: Listing, k: nat)
    requires k < |Cut(listing.rows)|
    ensures |KeyRoute(spine, listing)| == |Cut(listing.rows)|
    ensures WellCut(Cut(listing.rows)) && OneNumber(Cut(listing.rows)[k])
    ensures KeyRoute(spine, listing)[k]
         == StageKeyOf(Settled(listing.route, k + 1, Cut(listing.rows), k),
                       PairWithSpine(|Cut(listing.rows)|, ReplicaOf(spine, listing.route).heads)[k],
                       ReplicaOf(spine, listing.route).direction)
  {
    CutIsWellCut(listing.rows);
    hide Cut, Joined, Settled, StageKeyOf, PairWithSpine, ReplicaOf;
  }

  lemma KeyCount(spine: Spine, listing: Listing)
    ensures |KeyRoute(spine, listing)| == |Cut(listing.rows)| && WellCut(Cut(listing.rows))
  {
    CutIsWellCut(listing.rows);
  }

  lemma FlatRunIsOne(spine: Spine, listing: Listing, stages: StageTable, k: nat)
    requires k < |KeyRoute(spine, listing)| && Staged(KeyRoute(spine, listing), stages) && WellStaged(stages)
    ensures k < |Cut(listing.rows)| && Cut(listing.rows)[k] != []
    ensures OneNumber(FlatParts(KeyRoute(spine, listing), stages)[k])
    ensures FlatParts(KeyRoute(spine, listing), stages)[k][0].stageNo == Cut(listing.rows)[k][0].stageNo
  {
    KeyCount(spine, listing);
    KeyAt(spine, listing, k);
    hide KeyRoute, Cut, WellCut, Canon, PairWithSpine;
    assert stages[KeyRoute(spine, listing)[k].key].stops != [];
  }

  /** The rows written for a route are cut where its own rows were. */
  lemma FlatIsWellCut(spine: Spine, listing: Listing, stages: StageTable)
    requires Staged(KeyRoute(spine, listing), stages) && WellStaged(stages)
    ensures WellCut(FlatParts(KeyRoute(spine, listing), stages))
    ensures |FlatParts(KeyRoute(spine, listing), stages)| == |Cut(listing.rows)|
  {
    KeyCount(spine, listing);
    var parts: seq<seq<StageRow>>, flat := Cut(listing.rows), FlatParts(KeyRoute(spine, listing), stages);
    assert forall k | 0 <= k < |parts| - 1 :: Apart(parts[k], parts[k + 1]);
    hide KeyRoute, Cut, WellStaged, OneNumber;
    forall k | 0 <= k < |flat|
      ensures OneNumber(flat[k]) && flat[k] != [] && parts[k] != [] && flat[k][0].stageNo == parts[k][0].stageNo
    {
      FlatRunIsOne(spine, listing, stages, k);
    }
  }

  lemma RunReadAgain(spine: Spine, listing: Listing, stages: StageTable, next: Listing, k: nat)
    requires k < |KeyRoute(spine, listing)| && Staged(KeyRoute(spine, listing), stages) && WellStaged(stages)
    requires next.route == listing.route && Cut(next.rows) == FlatParts(KeyRoute(spine, listing), stages)
    ensures |KeyRoute(spine, next)| == |KeyRoute(spine, listing)|
    ensures KeyRoute(spine, next)[k] == Again(KeyRoute(spine, listing)[k], stages[KeyRoute(spine, listing)[k].key])
  {
    KeyCount(spine, listing);
    KeyAt(spine, listing, k);
    KeyAt(spine, next, k);
    RunWellKeyed(spine, listing, k);
    FlatRunIsOne(spine, listing, stages, k);
    hide KeyRoute, Cut, WellCut, Canon, OneNumber;
    assert stages[KeyRoute(spine, listing)[k].key].stops != [];
  }

  lemma RouteReadAgain(spine: Spine, listing: Listing, stages: StageTable)
    requires Staged(KeyRoute(spine, listing), stages) && WellStaged(stages)
    ensures ReadAgain(stages, KeyRoute(spine, listing),
                      KeyRoute(spine, Listing(listing.route, Flatten(KeyRoute(spine, listing), stages))))
  {
    var next := Listing(listing.route, Flatten(KeyRoute(spine, listing), stages));
    FlatIsWellCut(spine, listing, stages);
    CutOfJoined(FlatParts(KeyRoute(spine, listing), stages));
    KeyCount(spine, listing);
    KeyCount(spine, next);
    hide KeyRoute, Cut, WellCut, WellStaged, Again, FlatParts;
    forall k | 0 <= k < |KeyRoute(spine, listing)|
      ensures KeyRoute(spine, next)[k] == Again(KeyRoute(spine, listing)[k], stages[KeyRoute(spine, listing)[k].key])
    {
      RunReadAgain(spine, listing, stages, next, k);
    }
  }

  lemma ReadAgainJoins(stages: StageTable, a: seq<Keyed>, a': seq<Keyed>, b: seq<Keyed>, b': seq<Keyed>)
    requires ReadAgain(stages, a, a') && ReadAgain(stages, b, b')
    ensures ReadAgain(stages, a + b, a' + b')
  {
    hide Again;
  }

  lemma {:induction false} AllReadAgain(spine: Spine, stages: StageTable, listings: seq<Listing>)
    requires Staged(KeyAll(spine, listings), stages) && WellStaged(stages)
    ensures ReadAgain(stages, KeyAll(spine, listings), KeyAll(spine, Written(spine, stages, listings)))
  {
    if listings != [] {
      hide KeyRoute, Flatten, ReadAgain, WellStaged;
      var front, last := listings[..|listings| - 1], listings[|listings| - 1];
      AllReadAgain(spine, stages, front);
      RouteReadAgain(spine, last, stages);
      var next := Written(spine, stages, listings);
      assert next[..|next| - 1] == Written(spine, stages, front);
      ReadAgainJoins(stages, KeyAll(spine, front), KeyAll(spine, Written(spine, stages, front)),
                     KeyRoute(spine, last), KeyRoute(spine, next[|next| - 1]));
    }
  }

  lemma {:induction false} GroupReadAgain(stages: StageTable, runs: seq<Keyed>, again: seq<Keyed>, key: StageKey)
    requires ReadAgain(stages, runs, again) && key in stages
    ensures |Group(again, key)| == |Group(runs, key)|
    ensures forall i | 0 <= i < |Group(runs, key)| :: Group(again, key)[i] == Again(Group(runs, key)[i], stages[key])
  {
    if runs != [] {
      var m := |runs| - 1;
      assert again[m] == Again(runs[m], stages[runs[m].key]);
      GroupReadAgain(stages, runs[..m], again[..m], key);
    }
  }

  lemma AgainStops(k: Keyed, stage: Stage)
    ensures Stops(Again(k, stage).run) == stage.stops
  {
    assert Stops(Again(k, stage).run) == stage.stops;
  }

  /** Read back, every stage has the one list it was written with. */
  lemma StageReadAgain(pick: Pick, runs: seq<Keyed>, again: seq<Keyed>, key: StageKey)
    requires key in Stages(pick, runs) && ReadAgain(Stages(pick, runs), runs, again)
    ensures Group(again, key) != [] && StageOf(pick, again, key) == Stages(pick, runs)[key]
    ensures Lists(Group(again, key)) == [Stages(pick, runs)[key].stops]
  {
    var stage := Stages(pick, runs)[key];
    RunGroups(runs, key);
    GroupReadAgain(Stages(pick, runs), runs, again, key);
    var group := Group(again, key);
    hide *;
    hide Stops, Again, Group, Lists, Chosen, Stages, ReadAgain;
    forall i | 0 <= i < |group|
      ensures Stops(group[i].run) == stage.stops
    {
      AgainStops(Group(runs, key)[i], stage);
    }
    ChoiceOfAgreed(pick, group, stage.stops);
    assert group[0] == Again(Group(runs, key)[0], stage);
  }
}
