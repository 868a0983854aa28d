/** Which stage every run of a route is taken for, and what is written of it, in terms of
    the replica's heads. */
module Keys {
  import opened Records
  import opened Texts
  import opened StageCut
  import opened StageChoice
  import opened Backfill
  import opened Reconcile
  import opened StageMap

  /** A stretch is one part of the cut, numbered from one, with the number of its first
      row and that row's name, stripped. */
  lemma StretchesAre(route: Id, rows: seq<StageRow>)
    ensures |Stretches(route, rows)| == |Cut(rows)|
    ensures forall k | 0 <= k < |Cut(rows)| ::
              var run := Stretches(route, rows)[k];
              && run.route == route && run.position == k + 1 && run.rows == Cut(rows)[k] && run.rows != []
              && run.stageNo == run.rows[0].stageNo && run.name == Stripped(run.rows[0].stageName)
  {
    CutIsWellCut(rows);
    forall k | 0 <= k < |Cut(rows)|
      ensures Cut(rows)[k] != []
    {
      assert OneNumber(Cut(rows)[k]);
    }
    hide Cut, WellCut;
  }

  /** The heads the replica gives a route, in order; none for a route it does not carry. */
  function HeadsOf(spine: Spine, route: Id): seq<Head> {
    if route in spine then spine[route].heads else []
  }

  function DirectionOf(spine: Spine, route: Id): Option<string> {
    if route in spine then spine[route].direction else None
  }

  /** The migration pairs by position: where the replica counts as many stages as the
      route has stretches, stretch k is its k-th stage, known by that stage's stop and
      called as the replica calls it; otherwise every stretch keeps its own name. */
  lemma PairedByPosition(spine: Spine, listing: Listing, k: nat)
    requires k < |Stretches(listing.route, listing.rows)|
    ensures |KeyRoute(spine, listing)| == |Stretches(listing.route, listing.rows)|
    ensures var runs, heads, direction := Stretches(listing.route, listing.rows), HeadsOf(spine, listing.route), DirectionOf(spine, listing.route);
            var keyed := KeyRoute(spine, listing)[k];
            && keyed.run == runs[k]
            && (if |heads| == |runs| then keyed.key == Mtc(heads[k].stop, direction) && keyed.shown == heads[k].name
                else keyed.key == Named(runs[k].name, direction) && keyed.shown == runs[k].name)
  {
    hide Stretches;
  }

  /** The mapping pairs by its verdict: a run with a head is that stage, and a run with
      none goes by its own name. */
  lemma PairedByVerdict(spine: Spine, listing: Listing, k: nat)
    requires k < |Stretches(listing.route, listing.rows)|
    ensures |MapRoute(spine, listing)| == |Stretches(listing.route, listing.rows)|
    ensures var runs, heads, direction := Stretches(listing.route, listing.rows), HeadsOf(spine, listing.route), DirectionOf(spine, listing.route);
            var keyed, head := MapRoute(spine, listing)[k], HeadOf(runs, heads, k);
            && keyed.run == runs[k]
            && (head.Some? ==> keyed.key == Mtc(head.value.stop, direction) && keyed.shown == head.value.name)
            && (head.None? ==> keyed.key == Named(runs[k].name, direction) && keyed.shown == runs[k].name)
  {
    StretchesAre(listing.route, listing.rows);
    StrippedTwice(Stretches(listing.route, listing.rows)[k].rows[0].stageName);
    hide Stretches, HeadOf, Cut, Stripped;
  }

  /** The first run of a key. */
  predicate FirstOf(all: seq<Keyed>, key: StageKey, j: nat) {
    j < |all| && all[j].key == key && forall i | 0 <= i < j :: all[i].key != key
  }

  lemma {:induction false} GroupBegins(all: seq<Keyed>, key: StageKey, j: nat)
    requires FirstOf(all, key, j)
    ensures Group(all, key) != [] && Group(all, key)[0] == all[j]
  {
    var front, last := all[..|all| - 1], all[|all| - 1];
    if j < |front| {
      assert FirstOf(front, key, j);
      GroupBegins(front, key, j);
    } else {
      NoneBefore(front, key);
    }
  }

  lemma {:induction false} NoneBefore(all: seq<Keyed>, key: StageKey)
    requires forall i | 0 <= i < |all| :: all[i].key != key
    ensures Group(all, key) == []
  {
    if all != [] {
      NoneBefore(all[..|all| - 1], key);
    }
  }

  /** A stage is called what the first run of its key shows. */
  lemma StageNames(pick: Pick, all: seq<Keyed>, key: StageKey, j: nat)
    requires FirstOf(all, key, j)
    ensures key in Stages(pick, all) && Stages(pick, all)[key].name == all[j].shown && Stages(pick, all)[key].key == key
  {
    GroupBegins(all, key, j);
    hide Group, Chosen;
    assert all[j] in all;
  }

  /** The rows written for stretch k: its own stage number, the name of its stage and the
      stage's stops, one row each. */
  lemma RowsWrittenFor(spine: Spine, listing: Listing, stages: StageTable, k: nat)
    requires Staged(KeyRoute(spine, listing), stages) && WellStaged(stages)
    requires k < |Stretches(listing.route, listing.rows)|
    ensures var rows := Flatten(KeyRoute(spine, listing), stages);
            && k < |KeyRoute(spine, listing)| && KeyRoute(spine, listing)[k].key in stages
            && |Cut(rows)| == |Stretches(listing.route, listing.rows)|
            && var part, stage := Cut(rows)[k], stages[KeyRoute(spine, listing)[k].key];
            && |part| == |stage.stops|
            && forall i | 0 <= i < |part| ::
                 && part[i].stageNo == Stretches(listing.route, listing.rows)[k].stageNo
                 && part[i].stageName == stage.name && part[i].at == stage.stops[i]
  {
    PairedByPosition(spine, listing, k);
    var runs := KeyRoute(spine, listing);
    assert runs[k] in runs;
    FlatIsWellCut(spine, listing, stages);
    KeyCount(spine, listing);
    CutOfJoined(FlatParts(runs, stages));
    hide KeyRoute, Cut, Stretches, WellCut, WellStaged, Joined;
  }
}
