/** Choosing one stop list for a fare stage out of those its routes give it. */
module StageChoice {
  import opened Records
  import opened StageCut
  import Sequences

  /** What identifies a stage: the external stop of its head, or its name. */
  datatype StageKey =
    | Mtc(stop: string, direction: Option<string>)
    | Named(name: string, direction: Option<string>)

  /** A stretch with the stage it belongs to and what that stage would be called. */
  datatype Keyed = Keyed(run: Stretch, key: StageKey, shown: string)

  datatype Pick = Commonest | Longest

  type StopList = seq<StageStop>

  function Stops(run: Stretch): StopList {
    seq(|run.rows|, i requires 0 <= i < |run.rows| => run.rows[i].at)
  }

  /** The runs of one stage, in order. */
  function Group(all: seq<Keyed>, key: StageKey): seq<Keyed> {
    if all == [] then [] else
      var last := all[|all| - 1];
      Group(all[..|all| - 1], key) + (if last.key == key then [last] else [])
  }

  /** The runs that give this very list. */
  function Giving(group: seq<Keyed>, list: StopList): seq<Keyed> {
    if group == [] then [] else
      var last := group[|group| - 1];
      Giving(group[..|group| - 1], list) + (if Stops(last.run) == list then [last] else [])
  }

  /** The different lists of a group, each where it first appears. */
  function Lists(group: seq<Keyed>): seq<StopList> {
    if group == [] then [] else
      var front, last := Lists(group[..|group| - 1]), Stops(group[|group| - 1].run);
      if last in front then front else front + [last]
  }

  function Least(a: SortKey, b: SortKey): SortKey {
    if Before(b, a) then b else a
  }

  /** The lowest route of some runs. */
  function FirstRoute(runs: seq<Keyed>): SortKey
    requires runs != []
  {
    var here := RouteSort(runs[|runs| - 1].run.route);
    if |runs| == 1 then here else Least(FirstRoute(runs[..|runs| - 1]), here)
  }

  /** How a list ranks: how many runs give it, how long it is, its lowest route. */
  datatype Rank = Rank(count: nat, length: nat, first: Option<SortKey>)

  function RankOf(group: seq<Keyed>, list: StopList): Rank {
    var runs := Giving(group, list);
    Rank(|runs|, |list|, if runs == [] then None else Some(FirstRoute(runs)))
  }

  /** `a` is ranked before `b`: more runs, then more stops, then a lower route; or
      more stops before more runs. */
  predicate Ahead(pick: Pick, a: Rank, b: Rank) {
    var (a1, a2, b1, b2) := if pick == Commonest then (a.count, a.length, b.count, b.length)
                            else (a.length, a.count, b.length, b.count);
    a1 > b1 || (a1 == b1 && (a2 > b2 || (a2 == b2 && a.first.Some? && b.first.Some? && Before(a.first.value, b.first.value))))
  }

  /** The first of the lists that none is ranked ahead of. */
  function Best(pick: Pick, group: seq<Keyed>, lists: seq<StopList>): StopList
    requires lists != []
  {
    var last := lists[|lists| - 1];
    if |lists| == 1 then last else
      var best := Best(pick, group, lists[..|lists| - 1]);
      if Ahead(pick, RankOf(group, last), RankOf(group, best)) then last else best
  }

  function Chosen(pick: Pick, group: seq<Keyed>): StopList
    requires group != []
  {
    ListsKnown(group);
    Best(pick, group, Lists(group))
  }

  // ---- the choice is observed and optimal

  predicate GivenIn(group: seq<Keyed>, list: StopList) {
    exists i :: 0 <= i < |group| && Stops(group[i].run) == list
  }

  predicate Different(lists: seq<StopList>) {
    forall i, j | 0 <= i < j < |lists| :: lists[i] != lists[j]
  }

  lemma OneMoreList(lists: seq<StopList>, list: StopList)
    requires Different(lists) && list !in lists
    ensures Different(lists + [list])
  {
  }

  lemma {:induction false} ListsDiffer(group: seq<Keyed>)
    ensures Different(Lists(group))
  {
    if group != [] {
      hide Lists, Stops, Different;
      var front, last := group[..|group| - 1], group[|group| - 1];
      Sequences.FrontAndLast(group);
      ListsDiffer(front);
      ListsGrow(front, last);
      if Stops(last.run) !in Lists(front) {
        OneMoreList(Lists(front), Stops(last.run));
      }
    }
  }

  /** The lists of a group are just those its runs give. */
  lemma {:induction false} ListedIsGiven(group: seq<Keyed>, list: StopList)
    ensures list in Lists(group) <==> GivenIn(group, list)
  {
    if group != [] {
      hide Lists, Stops, GivenIn;
      var front, last := group[..|group| - 1], group[|group| - 1];
      Sequences.FrontAndLast(group);
      ListedIsGiven(front, list);
      ListsGrow(front, last);
      GivenStays(front, last, list);
    }
  }

  lemma ListsKnown(group: seq<Keyed>)
    ensures forall i | 0 <= i < |group| :: Stops(group[i].run) in Lists(group)
    ensures forall list | list in Lists(group) :: exists i :: 0 <= i < |group| && Stops(group[i].run) == list
    ensures group != [] ==> Lists(group) != []
    ensures forall i, j | 0 <= i < j < |Lists(group)| :: Lists(group)[i] != Lists(group)[j]
  {
    hide Lists, Stops;
    ListsDiffer(group);
    forall i | 0 <= i < |group|
      ensures Stops(group[i].run) in Lists(group)
    {
      ListedIsGiven(group, Stops(group[i].run));
    }
    forall list | list in Lists(group)
      ensures GivenIn(group, list)
    {
      ListedIsGiven(group, list);
    }
    if group != [] {
      assert Stops(group[0].run) in Lists(group);
    }
  }

  lemma GivenStays(front: seq<Keyed>, last: Keyed, list: StopList)
    ensures GivenIn(front + [last], list) <==> GivenIn(front, list) || Stops(last.run) == list
  {
    hide Stops;
    var group := front + [last];
    assert group[|front|] == last;
    if GivenIn(front, list) {
      var i :| 0 <= i < |front| && Stops(front[i].run) == list;
      assert Stops(group[i].run) == list;
    }
  }

  lemma {:induction false} GivingRuns(group: seq<Keyed>, list: StopList)
    ensures forall k | k in Giving(group, list) :: k in group && Stops(k.run) == list
    ensures forall i | 0 <= i < |group| && Stops(group[i].run) == list :: group[i] in Giving(group, list)
  {
    if group != [] {
      var front := group[..|group| - 1];
      GivingRuns(front, list);
      assert group == front + [group[|group| - 1]];
    }
  }

  /** The ranks a group gives its lists: of observed lists all have a lowest route. */
  lemma AheadTransitive(pick: Pick, a: Rank, b: Rank, c: Rank)
    requires a.first.Some? && b.first.Some? && c.first.Some?
    requires !Ahead(pick, b, a) && !Ahead(pick, c, b)
    ensures !Ahead(pick, c, a)
  {
    if Ahead(pick, c, a) && Before(c.first.value, a.first.value) {
      BeforeTotal(a.first.value, b.first.value);
      BeforeTotal(b.first.value, c.first.value);
      if Before(a.first.value, b.first.value) {
        BeforeTransitive(c.first.value, a.first.value, b.first.value);
      }
    }
  }

  lemma AheadAsymmetric(pick: Pick, a: Rank, b: Rank)
    requires Ahead(pick, a, b)
    ensures !Ahead(pick, b, a)
  {
    if a.first.Some? && b.first.Some? {
      BeforeTotal(a.first.value, b.first.value);
    }
  }

  lemma {:induction false} BestIsFirstMaximal(pick: Pick, group: seq<Keyed>, lists: seq<StopList>)
    requires lists != [] && forall i | 0 <= i < |lists| :: RankOf(group, lists[i]).first.Some?
    ensures Best(pick, group, lists) in lists
    ensures forall i | 0 <= i < |lists| :: !Ahead(pick, RankOf(group, lists[i]), RankOf(group, Best(pick, group, lists)))
  {
    hide RankOf, Ahead;
    var n := |lists| - 1;
    if n == 0 {
      assert lists == [lists[0]];
      if Ahead(pick, RankOf(group, lists[0]), RankOf(group, lists[0])) {
        AheadAsymmetric(pick, RankOf(group, lists[0]), RankOf(group, lists[0]));
      }
    } else {
      var front := lists[..n];
      BestIsFirstMaximal(pick, group, front);
      var best, last := Best(pick, group, front), lists[n];
      var k :| 0 <= k < n && front[k] == best;
      assert lists[k] == best;
      if Ahead(pick, RankOf(group, last), RankOf(group, best)) {
        AheadAsymmetric(pick, RankOf(group, last), RankOf(group, best));
        forall i | 0 <= i < |lists|
          ensures !Ahead(pick, RankOf(group, lists[i]), RankOf(group, last))
        {
          if i < n {
            assert lists[i] == front[i];
            AheadTransitive(pick, RankOf(group, last), RankOf(group, best), RankOf(group, lists[i]));
          } else if Ahead(pick, RankOf(group, last), RankOf(group, last)) {
            AheadAsymmetric(pick, RankOf(group, last), RankOf(group, last));
          }
        }
      } else {
        assert forall i | 0 <= i < n :: lists[i] == front[i];
      }
    }
  }

  /** The chosen list is one the routes give, and no list they give is ranked ahead. */
  lemma ChoiceIsOptimal(pick: Pick, group: seq<Keyed>)
    requires group != []
    ensures exists i :: 0 <= i < |group| && Stops(group[i].run) == Chosen(pick, group)
    ensures forall i | 0 <= i < |group| ::
              !Ahead(pick, RankOf(group, Stops(group[i].run)), RankOf(group, Chosen(pick, group)))
  {
    ListsKnown(group);
    var lists := Lists(group);
    forall i | 0 <= i < |lists|
      ensures RankOf(group, lists[i]).first.Some?
    {
      assert lists[i] in lists;
      var k :| 0 <= k < |group| && Stops(group[k].run) == lists[i];
      GivingRuns(group, lists[i]);
    }
    BestIsFirstMaximal(pick, group, lists);
    forall i | 0 <= i < |group|
      ensures !Ahead(pick, RankOf(group, Stops(group[i].run)), RankOf(group, Chosen(pick, group)))
    {
      var k :| 0 <= k < |lists| && lists[k] == Stops(group[i].run);
    }
  }

  lemma {:induction false} AgreedLists(group: seq<Keyed>, list: StopList)
    requires group != [] && forall i | 0 <= i < |group| :: Stops(group[i].run) == list
    ensures Lists(group) == [list]
  {
    var front := group[..|group| - 1];
    if front == [] {
      assert Lists(front) == [];
    } else {
      AgreedLists(front, list);
    }
  }

  /** Where all runs agree the chosen list is theirs. */
  lemma ChoiceOfAgreed(pick: Pick, group: seq<Keyed>, list: StopList)
    requires group != [] && forall i | 0 <= i < |group| :: Stops(group[i].run) == list
    ensures Chosen(pick, group) == list && Lists(group) == [list]
  {
    AgreedLists(group, list);
  }

  /** A stage has one list exactly when its runs all give the same. */
  lemma AgreedExactly(group: seq<Keyed>)
    requires group != []
    ensures |Lists(group)| == 1 <==> forall i | 0 <= i < |group| :: Stops(group[i].run) == Stops(group[0].run)
  {
    ListsKnown(group);
    if forall i | 0 <= i < |group| :: Stops(group[i].run) == Stops(group[0].run) {
      AgreedLists(group, Stops(group[0].run));
    }
  }

  // ---- what the choice costs

  function Ids(list: StopList): multiset<Option<Id>> {
    multiset(seq(|list|, i requires 0 <= i < |list| => list[i].stop))
  }

  /** The stops a route with one list gains and loses when it is given another. */
  function Cost(chosen: StopList, held: StopList): nat {
    |Ids(chosen) - Ids(held)| + |Ids(held) - Ids(chosen)|
  }

  function Times(cost: nat, runs: nat): (r: nat)
    ensures r == cost * runs
  {
    if runs == 0 then 0 else Times(cost, runs - 1) + cost
  }

  /** Summed list by list, times the runs that give the list. */
  function ListCosts(chosen: StopList, group: seq<Keyed>, lists: seq<StopList>): nat {
    if lists == [] then 0 else
      var last := lists[|lists| - 1];
      ListCosts(chosen, group, lists[..|lists| - 1]) + Times(Cost(chosen, last), |Giving(group, last)|)
  }

  function Impact(chosen: StopList, group: seq<Keyed>): nat {
    ListCosts(chosen, group, Lists(group))
  }

  /** Summed run by run. */
  function RunCosts(chosen: StopList, group: seq<Keyed>): nat {
    if group == [] then 0 else
      RunCosts(chosen, group[..|group| - 1]) + Cost(chosen, Stops(group[|group| - 1].run))
  }

  lemma GivingGrows(group: seq<Keyed>, k: Keyed, list: StopList)
    ensures |Giving(group + [k], list)| == |Giving(group, list)| + if Stops(k.run) == list then 1 else 0
  {
    assert (group + [k])[..|group|] == group;
  }

  lemma ListCostsGrow(chosen: StopList, group: seq<Keyed>, lists: seq<StopList>, list: StopList)
    ensures ListCosts(chosen, group, lists + [list])
         == ListCosts(chosen, group, lists) + Times(Cost(chosen, list), |Giving(group, list)|)
  {
    assert (lists + [list])[..|lists|] == lists;
  }

  /** One more run adds the cost of its list, once. */
  lemma {:induction false} OneMoreRun(chosen: StopList, group: seq<Keyed>, k: Keyed, lists: seq<StopList>)
    requires forall i, j | 0 <= i < j < |lists| :: lists[i] != lists[j]
    ensures ListCosts(chosen, group + [k], lists)
         == ListCosts(chosen, group, lists) + if Stops(k.run) in lists then Cost(chosen, Stops(k.run)) else 0
  {
    hide Cost, Giving, Stops;
    if lists != [] {
      hide *;
      hide Cost, Giving, Stops, ListCosts;
      var front, last := lists[..|lists| - 1], lists[|lists| - 1];
      assert lists == front + [last];
      OneMoreRun(chosen, group, k, front);
      GivingGrows(group, k, last);
      ListCostsGrow(chosen, group, front, last);
      ListCostsGrow(chosen, group + [k], front, last);
      OneMoreTime(Cost(chosen, last), |Giving(group, last)|);
      assert Stops(k.run) in lists <==> Stops(k.run) in front || Stops(k.run) == last;
      assert last !in front;
    }
  }

  lemma OneMoreTime(cost: nat, runs: nat)
    ensures Times(cost, runs + 1) == Times(cost, runs) + cost
  {
  }

  lemma GivenIsListed(group: seq<Keyed>, list: StopList)
    requires Giving(group, list) != []
    ensures list in Lists(group)
  {
    ListsKnown(group);
    GivingRuns(group, list);
    var k := Giving(group, list)[0];
    assert k in Giving(group, list);
    var i :| 0 <= i < |group| && group[i] == k;
    assert Stops(group[i].run) in Lists(group);
  }

  /** A list nobody gave yet joins the lists with its one run. */
  lemma NewListCosts(chosen: StopList, front: seq<Keyed>, k: Keyed)
    requires Stops(k.run) !in Lists(front)
    ensures ListCosts(chosen, front + [k], Lists(front) + [Stops(k.run)])
         == ListCosts(chosen, front + [k], Lists(front)) + Cost(chosen, Stops(k.run))
  {
    hide Cost, Giving, Lists, Stops, ListCosts;
    ListCostsGrow(chosen, front + [k], Lists(front), Stops(k.run));
    if Giving(front, Stops(k.run)) != [] {
      GivenIsListed(front, Stops(k.run));
    }
    GivingGrows(front, k, Stops(k.run));
    OneMoreTime(Cost(chosen, Stops(k.run)), 0);
  }

  lemma ListsGrow(front: seq<Keyed>, k: Keyed)
    ensures Lists(front + [k]) == if Stops(k.run) in Lists(front) then Lists(front) else Lists(front) + [Stops(k.run)]
  {
    assert (front + [k])[..|front|] == front;
  }

  lemma RunCostsGrow(chosen: StopList, front: seq<Keyed>, k: Keyed)
    ensures RunCosts(chosen, front + [k]) == RunCosts(chosen, front) + Cost(chosen, Stops(k.run))
  {
    assert (front + [k])[..|front|] == front;
  }

  lemma ImpactGrows(chosen: StopList, front: seq<Keyed>, k: Keyed)
    ensures Impact(chosen, front + [k]) == Impact(chosen, front) + Cost(chosen, Stops(k.run))
  {
    hide Cost, Giving, Stops, ListCosts, Lists;
    ListsKnown(front);
    ListsGrow(front, k);
    OneMoreRun(chosen, front, k, Lists(front));
    if Stops(k.run) !in Lists(front) {
      NewListCosts(chosen, front, k);
    }
  }

  /** The impact is what every run gains and loses, summed. */
  lemma {:induction false} ImpactIsTheSumOfRuns(chosen: StopList, group: seq<Keyed>)
    ensures Impact(chosen, group) == RunCosts(chosen, group)
  {
    if group != [] {
      hide Cost, Stops, Impact, RunCosts;
      var front, k := group[..|group| - 1], group[|group| - 1];
      assert group == front + [k];
      ImpactIsTheSumOfRuns(chosen, front);
      RunCostsGrow(chosen, front, k);
      ImpactGrows(chosen, front, k);
    }
  }

  /** Where all runs agree the choice costs nothing. */
  lemma AgreedCostsNothing(pick: Pick, group: seq<Keyed>, list: StopList)
    requires group != [] && forall i | 0 <= i < |group| :: Stops(group[i].run) == list
    ensures Impact(Chosen(pick, group), group) == 0
  {
    ChoiceOfAgreed(pick, group, list);
    ImpactIsTheSumOfRuns(list, group);
    AgreedRunsCostNothing(group, list);
  }

  lemma {:induction false} AgreedRunsCostNothing(group: seq<Keyed>, list: StopList)
    requires forall i | 0 <= i < |group| :: Stops(group[i].run) == list
    ensures RunCosts(list, group) == 0
  {
    if group != [] {
      AgreedRunsCostNothing(group[..|group| - 1], list);
      assert Ids(list) - Ids(list) == multiset{};
    }
  }

  // ---- every run in one stage

  lemma {:induction false} GroupRuns(all: seq<Keyed>, key: StageKey)
    ensures forall k | k in Group(all, key) :: k in all && k.key == key
    ensures forall i | 0 <= i < |all| && all[i].key == key :: all[i] in Group(all, key)
  {
    if all != [] {
      GroupRuns(all[..|all| - 1], key);
      assert all == all[..|all| - 1] + [all[|all| - 1]];
    }
  }

  /** A stage is called what the first of its runs shows. */
  datatype Stage = Stage(key: StageKey, name: string, stops: StopList)

  function StageOf(pick: Pick, all: seq<Keyed>, key: StageKey): Stage
    requires Group(all, key) != []
  {
    Stage(key, Group(all, key)[0].shown, Chosen(pick, Group(all, key)))
  }

  lemma GroupGrows(all: seq<Keyed>, k: Keyed, key: StageKey)
    ensures Group(all + [k], key) == Group(all, key) + if k.key == key then [k] else []
  {
    assert (all + [k])[..|all|] == all;
  }

  /** The groups of the runs seen so far, and the name the first run of each shows. */
  ghost predicate Grouped(all: seq<Keyed>, groups: map<StageKey, seq<Keyed>>, names: map<StageKey, string>) {
    && names.Keys == groups.Keys
    && (forall key: StageKey {:trigger Group(all, key)} :: key in groups <==> Group(all, key) != [])
    && (forall key | key in groups :: groups[key] == Group(all, key) && names[key] == Group(all, key)[0].shown)
  }

  /** Fills the groups, and each stage's name from the first run that carries it. */
  method GroupStages(all: seq<Keyed>) returns (groups: map<StageKey, seq<Keyed>>, names: map<StageKey, string>)
    ensures Grouped(all, groups, names)
  {
    groups, names := map[], map[];
    assert all[..0] == [];
    for i := 0 to |all|
      invariant Grouped(all[..i], groups, names)
    {
      groups, names := AddRun(all[..i], groups, names, all[i]);
      assert all[..i + 1] == all[..i] + [all[i]];
    }
    assert all[..|all|] == all;
  }

  method AddRun(ghost seen: seq<Keyed>, groups: map<StageKey, seq<Keyed>>, names: map<StageKey, string>, k: Keyed)
    returns (groups': map<StageKey, seq<Keyed>>, names': map<StageKey, string>)
    requires Grouped(seen, groups, names)
    ensures Grouped(seen + [k], groups', names')
  {
    hide Group;
    forall key: StageKey {:trigger Group(seen + [k], key)} {
      GroupGrows(seen, k, key);
    }
    groups' := groups[k.key := (if k.key in groups then groups[k.key] else []) + [k]];
    names' := if k.key in names then names else names[k.key := k.shown];
  }

  /** The lists in the order they appear, each with the runs that give it. */
  ghost predicate Listed(group: seq<Keyed>, lists: seq<StopList>, giving: map<StopList, seq<Keyed>>) {
    && lists == Lists(group)
    && (forall list | list in lists :: list in giving)
    && (forall list | list in giving :: list in lists && giving[list] == Giving(group, list))
  }

  lemma GivenFromNone(group: seq<Keyed>, k: Keyed)
    requires Stops(k.run) !in Lists(group)
    ensures Giving(group + [k], Stops(k.run)) == [k]
  {
    assert (group + [k])[..|group|] == group;
    if Giving(group, Stops(k.run)) != [] {
      GivenIsListed(group, Stops(k.run));
    }
  }

  lemma GivenGrows(group: seq<Keyed>, k: Keyed, list: StopList)
    ensures Giving(group + [k], list) == Giving(group, list) + if Stops(k.run) == list then [k] else []
  {
    assert (group + [k])[..|group|] == group;
  }

  method AddList(ghost seen: seq<Keyed>, lists: seq<StopList>, giving: map<StopList, seq<Keyed>>, k: Keyed)
    returns (lists': seq<StopList>, giving': map<StopList, seq<Keyed>>)
    requires Listed(seen, lists, giving)
    ensures Listed(seen + [k], lists', giving')
  {
    var list := Stops(k.run);
    hide Stops, Giving, Lists;
    ListsGrow(seen, k);
    forall other: StopList {:trigger Giving(seen + [k], other)} {
      GivenGrows(seen, k, other);
    }
    if list in giving {
      lists', giving' := lists, giving[list := giving[list] + [k]];
    } else {
      GivenFromNone(seen, k);
      lists', giving' := lists + [list], giving[list := [k]];
    }
  }

  method ListRuns(group: seq<Keyed>) returns (lists: seq<StopList>, giving: map<StopList, seq<Keyed>>)
    ensures Listed(group, lists, giving)
  {
    lists, giving := [], map[];
    assert group[..0] == [];
    for i := 0 to |group|
      invariant Listed(group[..i], lists, giving)
    {
      lists, giving := AddList(group[..i], lists, giving, group[i]);
      assert group[..i + 1] == group[..i] + [group[i]];
    }
    assert group[..|group|] == group;
  }

  /** Goes through the lists once for the one ranked first. */
  method PickList(pick: Pick, group: seq<Keyed>, lists: seq<StopList>) returns (best: StopList)
    requires lists != []
    ensures best == Best(pick, group, lists)
  {
    hide Ahead, RankOf;
    best := lists[0];
    assert lists[..1] == [lists[0]];
    for i := 1 to |lists|
      invariant best == Best(pick, group, lists[..i])
    {
      assert lists[..i + 1][..i] == lists[..i];
      if Ahead(pick, RankOf(group, lists[i]), RankOf(group, best)) {
        best := lists[i];
      }
    }
    assert lists[..|lists|] == lists;
  }

  method SumCosts(chosen: StopList, ghost group: seq<Keyed>, lists: seq<StopList>, giving: map<StopList, seq<Keyed>>)
    returns (impact: nat)
    requires Listed(group, lists, giving)
    ensures impact == Impact(chosen, group)
  {
    hide Cost, Giving;
    impact := 0;
    for i := 0 to |lists|
      invariant impact == ListCosts(chosen, group, lists[..i])
    {
      assert lists[i] in lists;
      assert lists[..i + 1] == lists[..i] + [lists[i]];
      ListCostsGrow(chosen, group, lists[..i], lists[i]);
      impact := impact + Cost(chosen, lists[i]) * |giving[lists[i]]|;
    }
    assert lists[..|lists|] == lists;
  }

  /** Chooses the list of one stage and says what the choice costs. */
  method Choose(pick: Pick, group: seq<Keyed>) returns (stops: StopList, impact: nat)
    requires group != []
    ensures stops == Chosen(pick, group)
    ensures exists i :: 0 <= i < |group| && Stops(group[i].run) == stops
    ensures forall i | 0 <= i < |group| :: !Ahead(pick, RankOf(group, Stops(group[i].run)), RankOf(group, stops))
    ensures impact == Impact(stops, group) == RunCosts(stops, group)
  {
    hide Stops, RankOf, Ahead;
    ListsKnown(group);
    var lists, giving := ListRuns(group);
    stops := PickList(pick, group, lists);
    impact := SumCosts(stops, group, lists, giving);
    ChoiceIsOptimal(pick, group);
    ImpactIsTheSumOfRuns(stops, group);
  }
}
