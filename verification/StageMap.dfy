/** Mapping every route's stages to the replica's, whatever order the routes come in. */
module StageMap {
  import opened Records
  import opened StageCut
  import opened StageChoice
  import opened Backfill
  import opened Reconcile
  import Fixpoint

  function Key(listing: Listing): SortKey {
    RouteSort(listing.route)
  }

  /** A route joins the sorted ones after those that sort with it or before it. */
  function Insert(sorted: seq<Listing>, l: Listing): seq<Listing> {
    if sorted == [] || !Before(Key(l), Key(sorted[|sorted| - 1])) then sorted + [l]
    else Insert(sorted[..|sorted| - 1], l) + [sorted[|sorted| - 1]]
  }

  function SortRoutes(listings: seq<Listing>): seq<Listing> {
    if listings == [] then [] else Insert(SortRoutes(listings[..|listings| - 1]), listings[|listings| - 1])
  }

  /** A route's runs with the stages they reconcile to. */
  function MapRoute(spine: Spine, listing: Listing): seq<Keyed> {
    var runs, replica := Stretches(listing.route, listing.rows), ReplicaOf(spine, listing.route);
    seq(|runs|, i requires 0 <= i < |runs| => MappedKey(runs[i], HeadOf(runs, replica.heads, i), replica.direction))
  }

  function MappedKey(run: Stretch, head: Option<Head>, direction: Option<string>): Keyed {
    if head.Some? then Keyed(run, Mtc(head.value.stop, direction), head.value.name)
    else Keyed(run, Named(Canon(run.name), direction), run.name)
  }

  function MapAll(spine: Spine, listings: seq<Listing>): seq<Keyed> {
    if listings == [] then [] else
      MapAll(spine, listings[..|listings| - 1]) + MapRoute(spine, listings[|listings| - 1])
  }

  datatype Mapping = Mapping(runs: seq<Keyed>, stages: StageTable, impact: map<StageKey, nat>)

  function MapStages(pick: Pick, spine: Spine, listings: seq<Listing>): Mapping {
    var all := MapAll(spine, SortRoutes(listings));
    Mapping(all, Stages(pick, all), Impacts(all, Stages(pick, all)))
  }

  // ---- order independence

  predicate KeysDiffer(listings: seq<Listing>) {
    forall i, j | 0 <= i < j < |listings| :: Key(listings[i]) != Key(listings[j])
  }

  predicate InOrder(listings: seq<Listing>) {
    forall i, j | 0 <= i < j < |listings| :: Before(Key(listings[i]), Key(listings[j]))
  }

  lemma {:induction false} InsertAdds(sorted: seq<Listing>, l: Listing)
    ensures multiset(Insert(sorted, l)) == multiset(sorted) + multiset{l}
  {
    if sorted != [] {
      var m := |sorted| - 1;
      InsertAdds(sorted[..m], l);
      assert sorted == sorted[..m] + [sorted[m]];
    }
  }

  lemma {:induction false} SortPermutes(listings: seq<Listing>)
    ensures multiset(SortRoutes(listings)) == multiset(listings)
  {
    hide Insert, Key;
    if listings != [] {
      var m := |listings| - 1;
      SortPermutes(listings[..m]);
      InsertAdds(SortRoutes(listings[..m]), listings[m]);
      assert listings == listings[..m] + [listings[m]];
    }
  }

  lemma SameElements(a: seq<Listing>, b: seq<Listing>, l: Listing)
    requires multiset(a) == multiset(b)
    ensures l in a <==> l in b
  {
    assert l in a <==> l in multiset(a);
    assert l in b <==> l in multiset(b);
  }

  lemma {:induction false} InsertInOrder(sorted: seq<Listing>, l: Listing)
    requires InOrder(sorted) && forall k | k in sorted :: Key(k) != Key(l)
    ensures InOrder(Insert(sorted, l))
  {
    hide Key, Before;
    if sorted == [] || !Before(Key(l), Key(sorted[|sorted| - 1])) {
      forall i | 0 <= i < |sorted|
        ensures Before(Key(sorted[i]), Key(l))
      {
        var last := sorted[|sorted| - 1];
        assert last in sorted && sorted[i] in sorted;
        BeforeTotal(Key(last), Key(l));
        if i < |sorted| - 1 {
          BeforeTransitive(Key(sorted[i]), Key(last), Key(l));
        }
      }
    } else {
      var m := |sorted| - 1;
      var front := Insert(sorted[..m], l);
      InsertInOrder(sorted[..m], l);
      InsertAdds(sorted[..m], l);
      forall k | k in front
        ensures Before(Key(k), Key(sorted[m]))
      {
        assert k in multiset(front);
        assert k in sorted[..m] || k == l;
      }
    }
  }

  lemma {:induction false} SortInOrder(listings: seq<Listing>)
    requires KeysDiffer(listings)
    ensures InOrder(SortRoutes(listings))
  {
    if listings != [] {
      var m := |listings| - 1;
      SortInOrder(listings[..m]);
      SortPermutes(listings[..m]);
      forall k | k in SortRoutes(listings[..m])
        ensures Key(k) != Key(listings[m])
      {
        SameElements(SortRoutes(listings[..m]), listings[..m], k);
      }
      InsertInOrder(SortRoutes(listings[..m]), listings[m]);
    }
  }

  /** Ordered lists of the same routes are the same list. */
  lemma {:induction false} OneOrder(a: seq<Listing>, b: seq<Listing>)
    requires InOrder(a) && InOrder(b) && multiset(a) == multiset(b)
    ensures a == b
  {
    SameLength(a, b);
    if a != [] {
      hide *;
      SameElements(a, b, a[|a| - 1]);
      SameElements(a, b, b[|b| - 1]);
      LastOfBoth(a, b);
      WithoutLast(a);
      WithoutLast(b);
      OneOrder(a[..|a| - 1], b[..|b| - 1]);
    }
  }

  lemma SameLength(a: seq<Listing>, b: seq<Listing>)
    requires multiset(a) == multiset(b)
    ensures |a| == |b|
  {
    assert |a| == |multiset(a)| && |b| == |multiset(b)|;
  }

  lemma WithoutLast(a: seq<Listing>)
    requires InOrder(a) && a != []
    ensures InOrder(a[..|a| - 1]) && a == a[..|a| - 1] + [a[|a| - 1]]
    ensures multiset(a[..|a| - 1]) == multiset(a) - multiset{a[|a| - 1]}
  {
    hide Key, Before;
    assert a == a[..|a| - 1] + [a[|a| - 1]];
  }

  lemma LastOfBoth(a: seq<Listing>, b: seq<Listing>)
    requires InOrder(a) && InOrder(b) && |a| == |b| > 0
    requires a[|a| - 1] in b && b[|b| - 1] in a
    ensures a[|a| - 1] == b[|b| - 1]
  {
    var m := |a| - 1;
    var i :| 0 <= i <= m && b[i] == a[m];
    var j :| 0 <= j <= m && a[j] == b[m];
    BeforeTotal(Key(a[m]), Key(b[m]));
  }

  lemma Twice(b: seq<Listing>, i: nat, j: nat)
    requires i < j < |b| && b[i] == b[j]
    ensures multiset(b)[b[i]] >= 2
  {
    assert b == b[..j] + b[j..];
    assert b[..j][i] == b[i] && b[j..][0] == b[i];
    assert b[i] in multiset(b[..j]) && b[i] in multiset(b[j..]);
  }

  lemma Once(a: seq<Listing>, k: nat)
    requires k < |a| && KeysDiffer(a)
    ensures multiset(a)[a[k]] == 1
  {
    hide Key;
    assert a == a[..k] + [a[k]] + a[k + 1..];
    assert a[k] !in a[..k] && a[k] !in a[k + 1..];
  }

  lemma KeysDifferBoth(a: seq<Listing>, b: seq<Listing>)
    requires multiset(a) == multiset(b) && KeysDiffer(a)
    ensures KeysDiffer(b)
  {
    hide Key;
    forall i, j | 0 <= i < j < |b|
      ensures Key(b[i]) != Key(b[j])
    {
      SameElements(a, b, b[i]);
      SameElements(a, b, b[j]);
      var k :| 0 <= k < |a| && a[k] == b[i];
      var n :| 0 <= n < |a| && a[n] == b[j];
      Once(a, k);
      if k == n {
        Twice(b, i, j);
      }
    }
  }

  /** The same routes in another order give the same runs, stages and impacts, where no
      two routes sort alike. */
  lemma OrderDoesNotMatter(pick: Pick, spine: Spine, a: seq<Listing>, b: seq<Listing>)
    requires multiset(a) == multiset(b) && KeysDiffer(a)
    ensures MapStages(pick, spine, a) == MapStages(pick, spine, b)
  {
    hide KeysDiffer, InOrder, SortRoutes, MapAll, Stages, Impacts;
    KeysDifferBoth(a, b);
    SortInOrder(a);
    SortInOrder(b);
    SortPermutes(a);
    SortPermutes(b);
    OneOrder(SortRoutes(a), SortRoutes(b));
  }

  lemma SortTwo(a: Listing, b: Listing)
    ensures SortRoutes([a, b]) == Insert([a], b)
  {
    assert SortRoutes([]) == [];
    assert [a][..0] == [] && SortRoutes([a]) == Insert([], a) == [a];
    assert [a, b][..1] == [a];
  }

  /** Routes that sort alike stay in the order they came in. */
  lemma TiedRoutesKeepTheirOrder(a: Listing, b: Listing)
    requires Key(a) == Key(b)
    ensures SortRoutes([a, b]) == [a, b] && SortRoutes([b, a]) == [b, a]
  {
    hide Key, Before;
    SortTwo(a, b);
    SortTwo(b, a);
    BeforeTotal(Key(a), Key(b));
  }

  /** A leading zero makes two routes of one number. */
  lemma LeadingZeroTies()
    ensures RouteSort("1") == RouteSort("01")
  {
    assert "1"[..0] == "" && "01"[..1] == "0" && "0"[..0] == "";
    assert Parse("0") == 0 && Parse("1") == 1 && Parse("01") == 1;
  }

  /** A route of one row, a stage called "x". */
  function OneRow(route: Id, stop: Id): Listing {
    Listing(route, [StageRow(1, "x", At(stop))])
  }

  function At(stop: Id): StageStop {
    StageStop(Some(stop), NewStop, None, Marker(None, None, None))
  }

  function OneRun(route: Id, stop: Id): Keyed {
    Keyed(Stretch(route, 1, 1, "x", [StageRow(1, "x", At(stop))]), Named("x", None), "x")
  }

  lemma OneRowMaps(route: Id, stop: Id)
    ensures MapRoute(map[], OneRow(route, stop)) == [OneRun(route, stop)]
  {
    var rows := OneRow(route, stop).rows;
    assert rows[..0] == [] && Cut([]) == [];
    assert Cut(rows) == [rows];
    assert Canon("x") == "x";
    hide Cut, Canon;
  }

  lemma TwoRoutesMap(a: Listing, b: Listing, ka: Keyed, kb: Keyed)
    requires MapRoute(map[], a) == [ka] && MapRoute(map[], b) == [kb]
    ensures MapAll(map[], [a, b]) == [ka, kb]
  {
    hide MapRoute;
    assert [a, b][..1] == [a] && [a][..0] == [] && MapAll(map[], []) == [];
    assert MapAll(map[], [a]) == [] + [ka];
  }

  lemma GivenByOne(k: Keyed, list: StopList)
    ensures Giving([k], list) == if Stops(k.run) == list then [k] else []
  {
    assert [k][..0] == [] && Giving([], list) == [];
  }

  lemma ListsOfTwo(ka: Keyed, kb: Keyed)
    requires Stops(ka.run) != Stops(kb.run)
    ensures Lists([ka, kb]) == [Stops(ka.run), Stops(kb.run)]
    ensures Giving([ka, kb], Stops(ka.run)) == [ka] && Giving([ka, kb], Stops(kb.run)) == [kb]
  {
    hide Stops;
    assert [ka, kb] == [ka] + [kb] && [ka][..0] == [] && Lists([]) == [];
    assert Lists([ka]) == [Stops(ka.run)];
    ListsGrow([ka], kb);
    GivenGrows([ka], kb, Stops(ka.run));
    GivenGrows([ka], kb, Stops(kb.run));
    GivenByOne(ka, Stops(ka.run));
    GivenByOne(ka, Stops(kb.run));
  }

  /** Between two lists of one rank the one that came first is taken. */
  lemma FirstOfTwo(pick: Pick, ka: Keyed, kb: Keyed)
    requires Stops(ka.run) != Stops(kb.run) && |Stops(ka.run)| == |Stops(kb.run)|
    requires RouteSort(ka.run.route) == RouteSort(kb.run.route)
    ensures Chosen(pick, [ka, kb]) == Stops(ka.run)
  {
    ListsOfTwo(ka, kb);
    assert RankOf([ka, kb], Stops(ka.run)) == RankOf([ka, kb], Stops(kb.run));
    hide RankOf, Stops, Lists, Ahead;
    var lists := [Stops(ka.run), Stops(kb.run)];
    var rank := RankOf([ka, kb], Stops(ka.run));
    if Ahead(pick, rank, rank) {
      AheadAsymmetric(pick, rank, rank);
    }
    assert lists[..1] == [Stops(ka.run)];
    assert Best(pick, [ka, kb], lists[..1]) == Stops(ka.run);
    assert Best(pick, [ka, kb], lists) == Stops(ka.run);
  }

  lemma StageOfTwo(pick: Pick, ka: Keyed, kb: Keyed)
    requires ka.key == kb.key && Stops(ka.run) != Stops(kb.run) && |Stops(ka.run)| == |Stops(kb.run)|
    requires RouteSort(ka.run.route) == RouteSort(kb.run.route)
    ensures ka.key in Stages(pick, [ka, kb]) && Stages(pick, [ka, kb])[ka.key].stops == Stops(ka.run)
  {
    FirstOfTwo(pick, ka, kb);
    hide Chosen, Stops, RouteSort;
    assert [ka, kb] == [ka] + [kb] && [ka][..0] == [] && Group([], ka.key) == [];
    GroupGrows([ka], kb, ka.key);
    assert Group([ka], ka.key) == [ka];
    assert Group([ka, kb], ka.key) == [ka, kb];
    assert ka in [ka, kb];
  }

  lemma TiedStage(pick: Pick, first: Id, second: Id, stop: Id, other: Id)
    requires RouteSort(first) == RouteSort(second) && stop != other
    ensures var m := MapStages(pick, map[], [OneRow(first, stop), OneRow(second, other)]);
            Named("x", None) in m.stages && m.stages[Named("x", None)].stops == [At(stop)]
  {
    var a, b, ka, kb := OneRow(first, stop), OneRow(second, other), OneRun(first, stop), OneRun(second, other);
    assert Stops(ka.run) == [At(stop)] && Stops(kb.run) == [At(other)] && [At(stop)][0] != [At(other)][0];
    hide RouteSort, MapRoute, Stages, MapAll, SortRoutes, Impacts, Stops;
    TiedRoutesKeepTheirOrder(a, b);
    OneRowMaps(first, stop);
    OneRowMaps(second, other);
    TwoRoutesMap(a, b, ka, kb);
    StageOfTwo(pick, ka, kb);
  }

  /** Routes that sort alike must be excluded: these two give their stage the stop of
      whichever comes first. */
  lemma OrderCanMatter(pick: Pick)
    ensures MapStages(pick, map[], [OneRow("1", "A"), OneRow("01", "B")]).stages
         != MapStages(pick, map[], [OneRow("01", "B"), OneRow("1", "A")]).stages
  {
    LeadingZeroTies();
    hide MapStages, RouteSort;
    TiedStage(pick, "1", "01", "A", "B");
    TiedStage(pick, "01", "1", "B", "A");
    assert [At("A")][0] != [At("B")][0];
  }

  // ---- every run in one stage

  lemma {:induction false} GroupCounts(all: seq<Keyed>, key: StageKey, k: Keyed)
    ensures multiset(Group(all, key))[k] == if k.key == key then multiset(all)[k] else 0
  {
    if all != [] {
      var m := |all| - 1;
      GroupCounts(all[..m], key, k);
      assert all == all[..m] + [all[m]];
    }
  }

  /** Each run is in the group of one stage, as often as it occurs, and in no other. */
  lemma EveryRunInOneStage(pick: Pick, spine: Spine, listings: seq<Listing>, k: Keyed)
    requires k in MapStages(pick, spine, listings).runs
    ensures var m := MapStages(pick, spine, listings);
            && k.key in m.stages
            && (forall key | key in m.stages ::
                  multiset(Group(m.runs, key))[k] == if key == k.key then multiset(m.runs)[k] else 0)
  {
    var m := MapStages(pick, spine, listings);
    forall key | key in m.stages
      ensures multiset(Group(m.runs, key))[k] == if key == k.key then multiset(m.runs)[k] else 0
    {
      GroupCounts(m.runs, key, k);
    }
  }

  /** Every stage's stops are a list one of its runs gives, and no list they give is
      ranked ahead; its impact is what its runs gain and lose, and none where they agree. */
  lemma StagesAreOptimal(pick: Pick, spine: Spine, listings: seq<Listing>, key: StageKey)
    requires key in MapStages(pick, spine, listings).stages
    ensures var m := MapStages(pick, spine, listings);
            var group, stops := Group(m.runs, key), m.stages[key].stops;
            && (exists i :: 0 <= i < |group| && Stops(group[i].run) == stops)
            && (forall i | 0 <= i < |group| :: !Ahead(pick, RankOf(group, Stops(group[i].run)), RankOf(group, stops)))
            && m.impact[key] == RunCosts(stops, group)
            && (|Lists(group)| == 1 ==> m.impact[key] == 0)
  {
    var m := MapStages(pick, spine, listings);
    var group := Group(m.runs, key);
    RunGroups(m.runs, key);
    ChoiceIsOptimal(pick, group);
    ImpactIsTheSumOfRuns(m.stages[key].stops, group);
    AgreedExactly(group);
    if |Lists(group)| == 1 {
      AgreedCostsNothing(pick, group, Stops(group[0].run));
    }
  }

  // ---- the script's loop

  /** A route's runs, each with the stage its verdict pairs it with. */
  method MapOne(spine: Spine, listing: Listing) returns (keyed: seq<Keyed>)
    ensures keyed == MapRoute(spine, listing)
  {
    hide Canon, Reconciled;
    var runs := CutRuns(listing.route, listing.rows);
    var replica := ReplicaOf(spine, listing.route);
    var verdict := ReconcileRoute(runs, replica.heads);
    PairingIsSound(runs, replica.heads);
    keyed := [];
    for i := 0 to |runs|
      invariant keyed == MapRoute(spine, listing)[..i]
    {
      var at := verdict.at[i];
      var head := if at.Some? then Some(replica.heads[at.value]) else None;
      assert head == HeadOf(runs, replica.heads, i);
      keyed := keyed + [MappedKey(runs[i], head, replica.direction)];
    }
  }

  /** Goes through the routes in their order, then chooses every stage's stops. */
  method MapEveryStage(pick: Pick, spine: Spine, listings: seq<Listing>) returns (m: Mapping)
    ensures m == MapStages(pick, spine, listings)
  {
    hide MapRoute, Stages, Impacts, SortRoutes;
    var sorted := SortRoutes(listings);
    var all := [];
    for i := 0 to |sorted|
      invariant all == MapAll(spine, sorted[..i])
    {
      assert sorted[..i + 1][..i] == sorted[..i];
      var keyed := MapOne(spine, sorted[i]);
      all := all + keyed;
    }
    assert sorted[..|sorted|] == sorted;
    var stages, impact := Fixpoint.ChooseStages(pick, all);
    m := Mapping(all, stages, impact);
  }
}
