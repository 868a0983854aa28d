/** Which stop list is chosen for a stage, told from its runs: by how many give a list,
    how long it is, the lowest route that gives it, and which run came first. And the
    order of routes, told from how their ids are written. */
module Ranking {
  import opened Records
  import opened Findings
  import opened StageCut
  import opened StageChoice
  import Ordering
  import Sequences

  // ---- the order of routes

  predicate Numeric(id: Id) {
    id != "" && forall i | 0 <= i < |id| :: '0' <= id[i] <= '9'
  }

  /** Two texts differ first at `k`, by the lower code point or by ending there. */
  predicate DiffersAt(a: string, b: string, k: nat) {
    && k <= |a| && k < |b|
    && (forall i | 0 <= i < k :: a[i] == b[i])
    && (k == |a| || a[k] < b[k])
  }

  lemma {:induction false} LeqIs(a: string, b: string)
    ensures a != b && Ordering.Leq(a, b) <==> exists k: nat :: k <= |a| && DiffersAt(a, b, k)
  {
    if a == "" {
      assert b != "" ==> DiffersAt(a, b, 0);
    } else if b != "" && a[0] == b[0] {
      LeqIs(a[1..], b[1..]);
      assert a == [a[0]] + a[1..] && b == [b[0]] + b[1..];
      if k: nat :| k <= |a[1..]| && DiffersAt(a[1..], b[1..], k) {
        assert DiffersAt(a, b, k + 1);
      }
      if k: nat :| k <= |a| && DiffersAt(a, b, k) {
        assert DiffersAt(a[1..], b[1..], k - 1);
      }
    } else if b != "" && a[0] < b[0] {
      assert DiffersAt(a, b, 0);
    }
  }

  lemma {:induction false} ParseDigits(n: nat)
    ensures Numeric(Digits(n)) && forall i | 0 <= i < |Digits(n)| :: Digit(Digits(n)[i])
    ensures Parse(Digits(n)) == n
  {
    if n >= 10 {
      ParseDigits(n / 10);
      assert Digits(n)[..|Digits(n)| - 1] == Digits(n / 10);
    }
  }

  lemma {:induction false} ParseZero(s: string)
    requires forall i | 0 <= i < |s| :: Digit(s[i])
    ensures Parse("0" + s) == Parse(s)
  {
    if s != "" {
      ParseZero(s[..|s| - 1]);
      assert ("0" + s)[..|s|] == "0" + s[..|s| - 1];
    } else {
      assert ("0" + s)[..0] == "";
    }
  }

  /** Routes with a number for an id come in the order of the numbers, however the
      numbers are padded, before all others; those come by code point. */
  lemma RoutesInOrder(m: nat, n: nat, a: Id, b: Id)
    ensures Before(RouteSort(Digits(m)), RouteSort(Digits(n))) <==> m < n
    ensures Numeric(a) ==> RouteSort("0" + a) == RouteSort(a)
    ensures Numeric(a) && !Numeric(b) ==> Before(RouteSort(a), RouteSort(b)) && !Before(RouteSort(b), RouteSort(a))
    ensures !Numeric(a) && !Numeric(b) ==>
              (Before(RouteSort(a), RouteSort(b)) <==> exists k: nat :: k <= |a| && DiffersAt(a, b, k))
  {
    ParseDigits(m);
    ParseDigits(n);
    LeqIs(a, b);
    if Numeric(a) {
      assert forall i | 0 <= i < |a| :: Digit(a[i]);
      ParseZero(a);
      assert forall i | 0 < i <= |a| :: ("0" + a)[i] == a[i - 1];
    }
    if !Numeric(a) && a != "" {
      var i :| 0 <= i < |a| && !('0' <= a[i] <= '9');
      assert !Digit(a[i]);
    }
    if !Numeric(b) && b != "" {
      var i :| 0 <= i < |b| && !('0' <= b[i] <= '9');
      assert !Digit(b[i]);
    }
    hide DiffersAt, Parse, Digits;
  }

  // ---- the choice

  /** The runs that give a list. */
  function Givers(group: seq<Keyed>, list: StopList): set<nat> {
    set i: nat | i < |group| && Stops(group[i].run) == list
  }

  /** One list is given by a lower route than any that gives the other. */
  predicate FromLower(group: seq<Keyed>, a: StopList, b: StopList) {
    exists i | i in Givers(group, a) ::
      forall k | k in Givers(group, b) :: i < |group| && k < |group| && Before(RouteSort(group[i].run.route), RouteSort(group[k].run.route))
  }

  /** One list is preferred to another: by how many runs give it, or by its length. */
  predicate Preferred(pick: Pick, group: seq<Keyed>, a: StopList, b: StopList) {
    var (m, n) := (|Givers(group, a)|, |Givers(group, b)|);
    match pick
    case Commonest => m > n || (m == n && (|a| > |b| || (|a| == |b| && FromLower(group, a, b))))
    case Longest => |a| > |b| || (|a| == |b| && (m > n || (m == n && FromLower(group, a, b))))
  }

  lemma GiversGrow(front: seq<Keyed>, k: Keyed, list: StopList)
    ensures Givers(front + [k], list) == if Stops(k.run) == list then Givers(front, list) + {|front|} else Givers(front, list)
    ensures |Givers(front + [k], list)| == |Givers(front, list)| + if Stops(k.run) == list then 1 else 0
  {
    hide Stops;
    var group := front + [k];
    assert group[|front|] == k && forall i: nat | i < |front| :: group[i] == front[i];
    assert Givers(group, list) == if Stops(k.run) == list then Givers(front, list) + {|front|} else Givers(front, list);
  }

  /** The lowest route of the givers. */
  predicate LowestOf(group: seq<Keyed>, list: StopList, low: SortKey) {
    && (exists i | i in Givers(group, list) :: i < |group| && low == RouteSort(group[i].run.route))
    && (forall i | i in Givers(group, list) :: i < |group| && !Before(RouteSort(group[i].run.route), low))
  }

  lemma LeastIs(a: SortKey, b: SortKey)
    ensures Least(a, b) == a || Least(a, b) == b
    ensures !Before(a, Least(a, b)) && !Before(b, Least(a, b))
    ensures forall c | !Before(c, a) :: !Before(c, Least(a, b))
  {
    BeforeTotal(a, b);
    BeforeTotal(a, a);
    BeforeTotal(b, b);
    forall c | !Before(c, a)
      ensures !Before(c, Least(a, b))
    {
      if Before(b, a) && Before(c, b) {
        BeforeTransitive(c, b, a);
      }
    }
  }

  lemma LowestGrows(front: seq<Keyed>, k: Keyed, list: StopList, low: SortKey)
    requires Stops(k.run) == list
    requires LowestOf(front, list, low)
    ensures LowestOf(front + [k], list, Least(low, RouteSort(k.run.route)))
  {
    hide Stops, RouteSort, Before, Least;
    var group, here := front + [k], RouteSort(k.run.route);
    LeastIs(low, here);
    GiversGrow(front, k, list);
    assert group[|front|] == k && |front| in Givers(group, list);
    forall i | i in Givers(group, list)
      ensures i < |group| && !Before(RouteSort(group[i].run.route), Least(low, here))
    {
      if i < |front| {
        assert group[i] == front[i] && i in Givers(front, list);
      }
    }
    var i :| i in Givers(front, list) && i < |front| && low == RouteSort(front[i].run.route);
    assert group[i] == front[i] && i in Givers(group, list);
  }

  lemma LowestAlone(front: seq<Keyed>, k: Keyed, list: StopList)
    requires Stops(k.run) == list && Givers(front, list) == {}
    ensures LowestOf(front + [k], list, RouteSort(k.run.route))
  {
    hide Stops, RouteSort, Before;
    GiversGrow(front, k, list);
    BeforeTotal(RouteSort(k.run.route), RouteSort(k.run.route));
    assert Givers(front + [k], list) == {|front|} && (front + [k])[|front|] == k;
    assert |front| in Givers(front + [k], list);
  }

  lemma LowestStays(front: seq<Keyed>, k: Keyed, list: StopList, low: SortKey)
    requires Stops(k.run) != list && LowestOf(front, list, low)
    ensures LowestOf(front + [k], list, low)
  {
    hide Stops, RouteSort, Before;
    GiversGrow(front, k, list);
    assert forall i: nat | i < |front| :: (front + [k])[i] == front[i];
    var i :| i in Givers(front, list) && i < |front| && low == RouteSort(front[i].run.route);
    assert i in Givers(front + [k], list);
  }

  lemma FirstRouteGrows(runs: seq<Keyed>, k: Keyed)
    ensures FirstRoute(runs + [k]) == if runs == [] then RouteSort(k.run.route) else Least(FirstRoute(runs), RouteSort(k.run.route))
  {
    assert (runs + [k])[..|runs|] == runs;
  }

  /** A list's rank counts its givers, its stops and its lowest route. */
  lemma {:induction false} RankMeans(group: seq<Keyed>, list: StopList)
    ensures var r := RankOf(group, list);
            && r.count == |Givers(group, list)| && r.length == |list|
            && (r.first.Some? <==> Givers(group, list) != {})
            && (r.first.Some? ==> LowestOf(group, list, r.first.value))
  {
    hide Stops, RouteSort, Before, Least, LowestOf, FirstRoute;
    if group == [] {
      assert Givers(group, list) == {};
    } else {
      hide Givers;
      var front, k := group[..|group| - 1], group[|group| - 1];
      Sequences.FrontAndLast(group);
      RankMeans(front, list);
      GivingGrown(front, k, list);
      GiversGrow(front, k, list);
      if Stops(k.run) != list {
        if RankOf(front, list).first.Some? {
          LowestStays(front, k, list, RankOf(front, list).first.value);
        }
      } else {
        FirstRouteGrows(Giving(front, list), k);
        if Giving(front, list) == [] {
          LowestAlone(front, k, list);
        } else {
          LowestGrows(front, k, list, RankOf(front, list).first.value);
        }
      }
    }
  }

  lemma GivingGrown(front: seq<Keyed>, k: Keyed, list: StopList)
    ensures Giving(front + [k], list) == if Stops(k.run) == list then Giving(front, list) + [k] else Giving(front, list)
  {
    assert (front + [k])[..|front|] == front;
  }

  lemma LowerIs(group: seq<Keyed>, a: StopList, b: StopList, low: SortKey, lowB: SortKey)
    requires LowestOf(group, a, low) && LowestOf(group, b, lowB)
    ensures FromLower(group, a, b) <==> Before(low, lowB)
  {
    hide Stops, RouteSort, Before, Givers;
    var i :| i in Givers(group, a) && i < |group| && low == RouteSort(group[i].run.route);
    var j :| j in Givers(group, b) && j < |group| && lowB == RouteSort(group[j].run.route);
    if Before(low, lowB) {
      forall k | k in Givers(group, b)
        ensures i < |group| && k < |group| && Before(RouteSort(group[i].run.route), RouteSort(group[k].run.route))
      {
        BelowAll(low, lowB, RouteSort(group[k].run.route));
      }
    }
    if FromLower(group, a, b) {
      var m :| m in Givers(group, a)
               && forall k | k in Givers(group, b) :: m < |group| && k < |group| && Before(RouteSort(group[m].run.route), RouteSort(group[k].run.route));
      assert Before(RouteSort(group[m].run.route), lowB);
      AboveAll(RouteSort(group[m].run.route), low, lowB);
    }
  }

  lemma BelowAll(low: SortKey, lowB: SortKey, other: SortKey)
    requires Before(low, lowB) && !Before(other, lowB)
    ensures Before(low, other)
  {
    BeforeTotal(lowB, other);
    if lowB != other {
      BeforeTransitive(low, lowB, other);
    }
  }

  lemma AboveAll(some_: SortKey, low: SortKey, lowB: SortKey)
    requires Before(some_, lowB) && !Before(some_, low)
    ensures Before(low, lowB)
  {
    BeforeTotal(some_, low);
    if some_ != low {
      BeforeTransitive(low, some_, lowB);
    }
  }

  /** So one list is ranked ahead of another exactly when it is preferred. */
  lemma AheadIsPreferred(pick: Pick, group: seq<Keyed>, a: StopList, b: StopList)
    requires Givers(group, a) != {} && Givers(group, b) != {}
    ensures Ahead(pick, RankOf(group, a), RankOf(group, b)) <==> Preferred(pick, group, a, b)
  {
    RankMeans(group, a);
    RankMeans(group, b);
    LowerIs(group, a, b, RankOf(group, a).first.value, RankOf(group, b).first.value);
    hide Givers, LowestOf, FromLower, RankOf, Before;
  }

  // ---- ties

  predicate AllRanked(group: seq<Keyed>, lists: seq<StopList>) {
    forall i | 0 <= i < |lists| :: RankOf(group, lists[i]).first.Some?
  }

  lemma AheadCarries(pick: Pick, a: Rank, b: Rank, c: Rank)
    requires a.first.Some? && b.first.Some? && c.first.Some?
    requires Ahead(pick, a, b) && !Ahead(pick, c, b)
    ensures Ahead(pick, a, c)
  {
    if !Ahead(pick, a, c) {
      AheadTransitive(pick, b, c, a);
    }
  }

  /** The best list is strictly ahead of all before it. */
  lemma {:induction false} BestIsFirst(pick: Pick, group: seq<Keyed>, lists: seq<StopList>) returns (k: nat)
    requires lists != [] && AllRanked(group, lists)
    ensures k < |lists| && Best(pick, group, lists) == lists[k]
    ensures forall i | 0 <= i < k :: Ahead(pick, RankOf(group, lists[k]), RankOf(group, lists[i]))
    ensures forall i | k <= i < |lists| :: !Ahead(pick, RankOf(group, lists[i]), RankOf(group, lists[k]))
  {
    hide RankOf, Ahead;
    var n := |lists| - 1;
    var last := RankOf(group, lists[n]);
    if Ahead(pick, last, last) {
      AheadAsymmetric(pick, last, last);
    }
    k := n;
    if n > 0 {
      var front := lists[..n];
      assert forall i | 0 <= i < n :: front[i] == lists[i];
      var j := BestIsFirst(pick, group, front);
      if Ahead(pick, last, RankOf(group, lists[j])) {
        forall i | 0 <= i < n
          ensures Ahead(pick, last, RankOf(group, lists[i]))
        {
          if i < j {
            assert front[i] == lists[i];
            AheadAsymmetric(pick, RankOf(group, lists[j]), RankOf(group, lists[i]));
          }
          AheadCarries(pick, last, RankOf(group, lists[j]), RankOf(group, lists[i]));
        }
      } else {
        k := j;
      }
    }
  }

  /** The run that first gives a list. */
  predicate FirstGives(group: seq<Keyed>, i: nat, list: StopList) {
    i < |group| && Stops(group[i].run) == list && forall k | 0 <= k < i :: Stops(group[k].run) != list
  }

  /** A run gives one list, and none up to it the other. */
  predicate GivenBefore(group: seq<Keyed>, a: StopList, b: StopList) {
    exists i :: 0 <= i < |group| && GivesBefore(group, i, a, b)
  }

  predicate GivesBefore(group: seq<Keyed>, i: nat, a: StopList, b: StopList) {
    i < |group| && Stops(group[i].run) == a && forall k | 0 <= k <= i :: Stops(group[k].run) != b
  }

  lemma GivenBeforeStays(front: seq<Keyed>, last: Keyed, a: StopList, b: StopList)
    requires GivenBefore(front, a, b)
    ensures GivenBefore(front + [last], a, b)
  {
    hide Stops;
    var i: nat :| i < |front| && GivesBefore(front, i, a, b);
    assert forall k | 0 <= k <= i :: (front + [last])[k] == front[k];
    assert GivesBefore(front + [last], i, a, b);
  }

  lemma GivenBeforeNew(front: seq<Keyed>, last: Keyed, a: StopList, b: StopList)
    requires a in Lists(front) && b !in Lists(front)
    ensures GivenBefore(front + [last], a, b)
  {
    hide Stops, Lists;
    ListsKnown(front);
    var i: nat :| i < |front| && Stops(front[i].run) == a;
    assert forall k | 0 <= k <= i :: (front + [last])[k] == front[k];
    assert GivesBefore(front + [last], i, a, b);
  }

  /** The lists stand in the order of the runs that first give them. */
  lemma {:induction false} ListsInOrder(group: seq<Keyed>, a: nat, b: nat)
    requires a < b < |Lists(group)|
    ensures GivenBefore(group, Lists(group)[a], Lists(group)[b])
  {
    hide Stops, Lists;
    ListsKnown(group);
    assert Lists(group)[a] in Lists(group);
    assert group != [];
    var front, last := group[..|group| - 1], group[|group| - 1];
    Sequences.FrontAndLast(group);
    ListsGrow(front, last);
    hide GivenBefore;
    if b < |Lists(front)| {
      ListsInOrder(front, a, b);
      GivenBeforeStays(front, last, Lists(front)[a], Lists(front)[b]);
    } else {
      assert Lists(front)[a] in Lists(front);
      GivenBeforeNew(front, last, Lists(front)[a], Stops(last.run));
    }
  }

  /** The list chosen is given by a run, no other is preferred to it, and it is
      preferred to every list that an earlier run gives. */
  lemma ChosenExactly(pick: Pick, group: seq<Keyed>)
    requires group != []
    ensures exists i: nat :: FirstGives(group, i, Chosen(pick, group))
              && (forall k | 0 <= k < i :: Preferred(pick, group, Chosen(pick, group), Stops(group[k].run)))
              && (forall k | i <= k < |group| :: !Preferred(pick, group, Stops(group[k].run), Chosen(pick, group)))
  {
    hide Stops, Preferred, Ahead, RankOf, Lists, Givers;
    var lists, chosen := Lists(group), Chosen(pick, group);
    ListsKnown(group);
    forall i | 0 <= i < |lists|
      ensures RankOf(group, lists[i]).first.Some? && Givers(group, lists[i]) != {}
    {
      assert lists[i] in lists;
      ListGiven(group, lists[i]);
    }
    var b := BestIsFirst(pick, group, lists);
    assert lists[b] in lists;
    var i := FirstGiver(group, chosen);
    forall k | 0 <= k < |group|
      ensures k < i ==> Preferred(pick, group, chosen, Stops(group[k].run))
      ensures i <= k ==> !Preferred(pick, group, Stops(group[k].run), chosen)
    {
      var list := Stops(group[k].run);
      assert list in lists;
      var a: nat :| a < |lists| && lists[a] == list;
      AheadIsPreferred(pick, group, chosen, list);
      AheadIsPreferred(pick, group, list, chosen);
      if a < b {
        AheadAsymmetric(pick, RankOf(group, lists[b]), RankOf(group, lists[a]));
      } else if k < i {
        LaterIsNotBefore(group, b, a, i, k);
      }
    }
  }

  lemma LaterIsNotBefore(group: seq<Keyed>, b: nat, a: nat, i: nat, k: nat)
    requires b <= a < |Lists(group)| && FirstGives(group, i, Lists(group)[b])
    requires k < |group| && Stops(group[k].run) == Lists(group)[a]
    ensures k >= i
  {
    hide Stops, Lists;
    if b < a {
      ListsInOrder(group, b, a);
    }
  }

  lemma ListGiven(group: seq<Keyed>, list: StopList)
    requires list in Lists(group)
    ensures RankOf(group, list).first.Some? && Givers(group, list) != {}
  {
    hide Stops, Lists;
    ListsKnown(group);
    var i: nat :| i < |group| && Stops(group[i].run) == list;
    assert i in Givers(group, list);
    RankMeans(group, list);
  }

  lemma FirstGiver(group: seq<Keyed>, list: StopList) returns (i: nat)
    requires list in Lists(group)
    ensures FirstGives(group, i, list)
  {
    hide Stops, Lists;
    ListsKnown(group);
    i := 0;
    while Stops(group[i].run) != list
      invariant i < |group| && forall k | 0 <= k < i :: Stops(group[k].run) != list
      invariant exists k :: i <= k < |group| && Stops(group[k].run) == list
      decreases |group| - i
    {
      i := i + 1;
    }
  }

  // ---- the cost

  /** Where a list has a stop. */
  function Having(list: StopList, stop: Option<Id>): set<nat> {
    set i: nat | i < |list| && list[i].stop == stop
  }

  lemma HavingGrows(front: StopList, last: StageStop, stop: Option<Id>)
    ensures |Having(front + [last], stop)| == |Having(front, stop)| + if last.stop == stop then 1 else 0
  {
    var list := front + [last];
    assert forall i: nat | i < |front| :: list[i] == front[i];
    assert Having(list, stop) == if last.stop == stop then Having(front, stop) + {|front|} else Having(front, stop);
  }

  /** The stops of a list, each as often as the list has it. */
  lemma {:induction false} IdsCount(list: StopList, stop: Option<Id>)
    ensures Ids(list)[stop] == |Having(list, stop)| && |Ids(list)| == |list|
  {
    if list == [] {
      assert Having(list, stop) == {};
    } else {
      hide Ids, Having;
      var front, last := list[..|list| - 1], list[|list| - 1];
      Sequences.FrontAndLast(list);
      IdsCount(front, stop);
      HavingGrows(front, last, stop);
      IdsGrow(front, last);
    }
  }

  lemma IdsGrow(front: StopList, last: StageStop)
    ensures Ids(front + [last]) == Ids(front) + multiset{last.stop}
  {
    var all, ids := front + [last], seq(|front|, i requires 0 <= i < |front| => front[i].stop);
    assert seq(|all|, i requires 0 <= i < |all| => all[i].stop) == ids + [last.stop];
  }

  /** A run pays for the stops of either list that are not common to both. */
  lemma CostIsWhatDiffers(chosen: StopList, held: StopList)
    ensures Cost(chosen, held) + 2 * |Ids(chosen) * Ids(held)| == |chosen| + |held|
  {
    IdsCount(chosen, None);
    IdsCount(held, None);
    hide Ids;
    assert Ids(chosen) == (Ids(chosen) - Ids(held)) + (Ids(chosen) * Ids(held));
    assert Ids(held) == (Ids(held) - Ids(chosen)) + (Ids(chosen) * Ids(held));
  }
}
