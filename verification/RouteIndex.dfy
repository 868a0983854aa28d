/** Route data without some of its routes: the mappings left, and both indexes of them. */
module RouteIndex {
  import opened Records
  import Sequences

  /** One stop of one route; what else it says is carried along. */
  datatype Mapping = Mapping(route: string, stop: string, details: string)

  type Positions = map<string, seq<nat>>

  datatype RouteData = RouteData(mappings: seq<Mapping>, byRoute: Positions, byStop: Positions)

  /** The mappings of the routes that stay. */
  function Kept(ms: seq<Mapping>, gone: set<string>): seq<Mapping> {
    if ms == [] then [] else
      var last := ms[|ms| - 1];
      Kept(ms[..|ms| - 1], gone) + if last.route in gone then [] else [last]
  }

  /** Where a mapping is once those before it have gone. */
  function Moved(ms: seq<Mapping>, gone: set<string>, i: nat): Option<nat> {
    if i < |ms| && ms[i].route !in gone then Some(|Kept(ms[..i], gone)|) else None
  }

  function Renumbered(ms: seq<Mapping>, gone: set<string>, at: seq<nat>): seq<nat> {
    if at == [] then [] else
      var to := Moved(ms, gone, at[|at| - 1]);
      Renumbered(ms, gone, at[..|at| - 1]) + if to.Some? then [to.value] else []
  }

  /** An index renumbered, less the keys that are left with nothing. */
  function Reindexed(ms: seq<Mapping>, gone: set<string>, index: Positions): Positions {
    map key | key in index && Renumbered(ms, gone, index[key]) != [] :: Renumbered(ms, gone, index[key])
  }

  function Without(data: RouteData, gone: set<string>): RouteData {
    RouteData(Kept(data.mappings, gone),
              Reindexed(data.mappings, gone, data.byRoute),
              Reindexed(data.mappings, gone, data.byStop))
  }

  /** What an index lists under a key, passing over positions there is nothing at. */
  function Listed(ms: seq<Mapping>, at: seq<nat>): seq<Mapping> {
    if at == [] then [] else
      Listed(ms, at[..|at| - 1]) + if at[|at| - 1] < |ms| then [ms[at[|at| - 1]]] else []
  }

  function Under(ms: seq<Mapping>, index: Positions, key: string): seq<Mapping> {
    if key in index then Listed(ms, index[key]) else []
  }

  // ---- both indexes agree with the filter

  lemma KeptNone(a: seq<Mapping>, gone: set<string>)
    ensures Kept([], gone) == [] && a + [] == a && Kept(a, gone) + [] == Kept(a, gone)
  {
  }

  lemma {:induction false} KeptJoins(a: seq<Mapping>, b: seq<Mapping>, gone: set<string>)
    ensures Kept(a + b, gone) == Kept(a, gone) + Kept(b, gone)
  {
    hide *;
    if b == [] {
      KeptNone(a, gone);
    } else {
      var m := |b| - 1;
      Sequences.FrontAndLast(b);
      Sequences.FrontAndLast(a + b);
      Sequences.FrontOfSum(a, b);
      KeptJoins(a, b[..m], gone);
      KeptMore(a + b[..m], b[m], gone);
      KeptMore(b[..m], b[m], gone);
    }
  }

  lemma KeptOne(m: Mapping, gone: set<string>)
    ensures Kept([m], gone) == if m.route in gone then [] else [m]
    ensures Kept([], gone) == []
  {
  }

  lemma KeptAround(a: seq<Mapping>, m: Mapping, b: seq<Mapping>, gone: set<string>)
    ensures Kept(a + [m] + b, gone) == Kept(a, gone) + Kept([m], gone) + Kept(b, gone)
  {
    KeptJoins(a + [m], b, gone);
    KeptJoins(a, [m], gone);
  }

  /** A mapping that stays is where it was moved to. */
  lemma MovedIsKept(ms: seq<Mapping>, gone: set<string>, i: nat)
    requires Moved(ms, gone, i).Some?
    ensures Moved(ms, gone, i).value < |Kept(ms, gone)| && Kept(ms, gone)[Moved(ms, gone, i).value] == ms[i]
  {
    hide Kept;
    assert ms == ms[..i] + [ms[i]] + ms[i + 1..];
    KeptAround(ms[..i], ms[i], ms[i + 1..], gone);
    KeptOne(ms[i], gone);
  }

  lemma KeptMore(ms: seq<Mapping>, m: Mapping, gone: set<string>)
    ensures Kept(ms + [m], gone) == if m.route in gone then Kept(ms, gone) else Kept(ms, gone) + [m]
  {
    assert (ms + [m])[..|ms|] == ms;
  }

  lemma ListedGrows(ms: seq<Mapping>, at: seq<nat>, i: nat)
    ensures Listed(ms, at + [i]) == if i < |ms| then Listed(ms, at) + [ms[i]] else Listed(ms, at)
  {
    assert (at + [i])[..|at|] == at;
  }

  lemma RenumberedGrows(ms: seq<Mapping>, gone: set<string>, at: seq<nat>, i: nat)
    ensures Renumbered(ms, gone, at + [i])
         == if Moved(ms, gone, i).Some? then Renumbered(ms, gone, at) + [Moved(ms, gone, i).value]
            else Renumbered(ms, gone, at)
  {
    assert (at + [i])[..|at|] == at;
  }

  lemma {:induction false} RenumberedLists(ms: seq<Mapping>, gone: set<string>, at: seq<nat>)
    ensures Listed(Kept(ms, gone), Renumbered(ms, gone, at)) == Kept(Listed(ms, at), gone)
    ensures |Renumbered(ms, gone, at)| == |Kept(Listed(ms, at), gone)|
  {
    if at == [] {
      assert Kept([], gone) == [];
    } else {
      hide Kept, Listed, Renumbered;
      var front, i := at[..|at| - 1], at[|at| - 1];
      assert at == front + [i];
      RenumberedLists(ms, gone, front);
      RenumberedGrows(ms, gone, front, i);
      ListedGrows(ms, front, i);
      if i < |ms| {
        KeptMore(Listed(ms, front), ms[i], gone);
      }
      if Moved(ms, gone, i).Some? {
        MovedIsKept(ms, gone, i);
        ListedGrows(Kept(ms, gone), Renumbered(ms, gone, front), Moved(ms, gone, i).value);
      }
    }
  }

  /** Each key lists, in order, what it listed less the routes gone; a key that has
      nothing left is no key any more. */
  lemma IndexAgrees(ms: seq<Mapping>, gone: set<string>, index: Positions, key: string)
    ensures Under(Kept(ms, gone), Reindexed(ms, gone, index), key) == Kept(Under(ms, index, key), gone)
    ensures key in Reindexed(ms, gone, index) <==> Kept(Under(ms, index, key), gone) != []
  {
    if key in index {
      RenumberedLists(ms, gone, index[key]);
    }
  }

  lemma WithoutAgrees(data: RouteData, gone: set<string>, key: string)
    ensures var out := Without(data, gone);
            && Under(out.mappings, out.byRoute, key) == Kept(Under(data.mappings, data.byRoute, key), gone)
            && Under(out.mappings, out.byStop, key) == Kept(Under(data.mappings, data.byStop, key), gone)
  {
    IndexAgrees(data.mappings, gone, data.byRoute, key);
    IndexAgrees(data.mappings, gone, data.byStop, key);
  }

  // ---- a complete index stays complete

  /** Every mapping is listed once, under its key, and nothing else is listed. */
  predicate Complete(ms: seq<Mapping>, index: Positions, keyOf: Mapping -> string) {
    && (forall i: nat {:trigger ms[i]} | i < |ms| :: keyOf(ms[i]) in index && i in index[keyOf(ms[i])])
    && (forall key | key in index :: index[key] != [] && Exact(ms, index[key], key, keyOf))
  }

  predicate Exact(ms: seq<Mapping>, at: seq<nat>, key: string, keyOf: Mapping -> string) {
    && (forall k | 0 <= k < |at| :: at[k] < |ms| && keyOf(ms[at[k]]) == key)
    && (forall j, k | 0 <= j < k < |at| :: at[j] != at[k])
  }

  lemma {:induction false} RenumberedFrom(ms: seq<Mapping>, gone: set<string>, at: seq<nat>, n: nat)
    ensures n in Renumbered(ms, gone, at) <==> exists i :: i in at && Moved(ms, gone, i) == Some(n)
  {
    if at != [] {
      var front, last := at[..|at| - 1], at[|at| - 1];
      RenumberedFrom(ms, gone, front, n);
      assert forall i :: i in at <==> i in front || i == last;
    }
  }

  lemma KeptGrows(ms: seq<Mapping>, gone: set<string>, i: nat, j: nat)
    requires i <= j <= |ms|
    ensures |Kept(ms[..i], gone)| <= |Kept(ms[..j], gone)|
    ensures Moved(ms, gone, i).Some? && i < j ==> |Kept(ms[..i], gone)| < |Kept(ms[..j], gone)|
  {
    hide Kept;
    Sequences.Slices(ms, i, j);
    KeptJoins(ms[..i], ms[i..j], gone);
    if i < j && Moved(ms, gone, i).Some? {
      KeptJoins([ms[i]], ms[i + 1..j], gone);
      KeptOne(ms[i], gone);
    }
  }

  lemma MovedApart(ms: seq<Mapping>, gone: set<string>, i: nat, j: nat)
    requires Moved(ms, gone, i).Some? && Moved(ms, gone, i) == Moved(ms, gone, j)
    ensures i == j
  {
    if i < j {
      KeptGrows(ms, gone, i, j);
    } else if j < i {
      KeptGrows(ms, gone, j, i);
    }
  }

  lemma {:induction false} RenumberedExact(ms: seq<Mapping>, gone: set<string>, at: seq<nat>, key: string, keyOf: Mapping -> string)
    requires Exact(ms, at, key, keyOf)
    ensures Exact(Kept(ms, gone), Renumbered(ms, gone, at), key, keyOf)
  {
    if at != [] {
      var front, i := at[..|at| - 1], at[|at| - 1];
      RenumberedExact(ms, gone, front, key, keyOf);
      if Moved(ms, gone, i).Some? {
        MovedIsKept(ms, gone, i);
        var n := Moved(ms, gone, i).value;
        RenumberedFrom(ms, gone, front, n);
        if n in Renumbered(ms, gone, front) {
          var j :| j in front && Moved(ms, gone, j) == Some(n);
          MovedApart(ms, gone, i, j);
        }
      }
    }
  }

  /** Where a mapping that stayed came from. */
  lemma {:induction false} KeptFrom(ms: seq<Mapping>, gone: set<string>, n: nat) returns (i: nat)
    requires n < |Kept(ms, gone)|
    ensures Moved(ms, gone, i) == Some(n)
  {
    var m := |ms| - 1;
    if n < |Kept(ms[..m], gone)| {
      i := KeptFrom(ms[..m], gone, n);
      assert ms[..m][..i] == ms[..i];
    } else {
      i := m;
    }
  }

  /** A complete index of what there was becomes a complete index of what is left. */
  lemma CompleteStays(ms: seq<Mapping>, gone: set<string>, index: Positions, keyOf: Mapping -> string)
    requires Complete(ms, index, keyOf)
    ensures Complete(Kept(ms, gone), Reindexed(ms, gone, index), keyOf)
  {
    var left, now := Kept(ms, gone), Reindexed(ms, gone, index);
    forall n: nat {:trigger left[n]} | n < |left|
      ensures keyOf(left[n]) in now && n in now[keyOf(left[n])]
    {
      var i := KeptFrom(ms, gone, n);
      MovedIsKept(ms, gone, i);
      RenumberedFrom(ms, gone, index[keyOf(ms[i])], n);
    }
    forall key | key in now
      ensures Exact(left, now[key], key, keyOf)
    {
      RenumberedExact(ms, gone, index[key], key, keyOf);
    }
  }

  // ---- one removal after another

  lemma {:induction false} KeptTwice(ms: seq<Mapping>, a: set<string>, b: set<string>)
    ensures Kept(Kept(ms, a), b) == Kept(ms, a + b)
  {
    if ms != [] {
      var m := |ms| - 1;
      KeptTwice(ms[..m], a, b);
      KeptJoins(Kept(ms[..m], a), Kept([ms[m]], a), b);
      assert Kept([ms[m]], a) == if ms[m].route in a then [] else [ms[m]];
    }
  }

  lemma MovedTwice(ms: seq<Mapping>, a: set<string>, b: set<string>, i: nat)
    ensures Moved(ms, a + b, i) ==
            if Moved(ms, a, i).None? then None else Moved(Kept(ms, a), b, Moved(ms, a, i).value)
  {
    if Moved(ms, a, i).Some? {
      hide Kept;
      MovedIsKept(ms, a, i);
      KeptTwice(ms[..i], a, b);
      KeptJoins(ms[..i], ms[i..], a);
      Sequences.Split(ms, i);
      Sequences.FirstOfSum(Kept(ms[..i], a), Kept(ms[i..], a));
    }
  }

  lemma {:induction false} RenumberedTwice(ms: seq<Mapping>, a: set<string>, b: set<string>, at: seq<nat>)
    ensures Renumbered(Kept(ms, a), b, Renumbered(ms, a, at)) == Renumbered(ms, a + b, at)
  {
    if at != [] {
      hide Kept, Moved, Renumbered;
      var front, i := at[..|at| - 1], at[|at| - 1];
      assert at == front + [i];
      RenumberedTwice(ms, a, b, front);
      MovedTwice(ms, a, b, i);
      RenumberedGrows(ms, a, front, i);
      RenumberedGrows(ms, a + b, front, i);
      if Moved(ms, a, i).Some? {
        RenumberedGrows(Kept(ms, a), b, Renumbered(ms, a, front), Moved(ms, a, i).value);
      }
    }
  }

  lemma ReindexedTwice(ms: seq<Mapping>, a: set<string>, b: set<string>, index: Positions)
    ensures Reindexed(Kept(ms, a), b, Reindexed(ms, a, index)) == Reindexed(ms, a + b, index)
  {
    hide Kept;
    forall key | key in index
      ensures Renumbered(Kept(ms, a), b, Renumbered(ms, a, index[key])) == Renumbered(ms, a + b, index[key])
    {
      RenumberedTwice(ms, a, b, index[key]);
    }
  }

  /** Removing routes in two steps is removing them in one. */
  lemma WithoutTwice(data: RouteData, a: set<string>, b: set<string>)
    ensures Without(Without(data, a), b) == Without(data, a + b)
  {
    KeptTwice(data.mappings, a, b);
    ReindexedTwice(data.mappings, a, b, data.byRoute);
    ReindexedTwice(data.mappings, a, b, data.byStop);
  }

  /** Removing nothing changes nothing exactly when every position listed is one and every
      key lists something. */
  lemma WithoutNothing(data: RouteData)
    ensures Without(data, {}) == data <==> Clean(data.mappings, data.byRoute) && Clean(data.mappings, data.byStop)
  {
    KeptWhole(data.mappings);
    ReindexedWhole(data.mappings, data.byRoute);
    ReindexedWhole(data.mappings, data.byStop);
  }

  predicate Clean(ms: seq<Mapping>, index: Positions) {
    forall key | key in index :: index[key] != [] && forall i | i in index[key] :: i < |ms|
  }

  lemma {:induction false} KeptWhole(ms: seq<Mapping>)
    ensures Kept(ms, {}) == ms
  {
    if ms != [] {
      KeptWhole(ms[..|ms| - 1]);
    }
  }

  lemma {:induction false} RenumberedWhole(ms: seq<Mapping>, at: seq<nat>)
    ensures |Renumbered(ms, {}, at)| <= |at|
    ensures Renumbered(ms, {}, at) == at <==> forall i | i in at :: i < |ms|
  {
    if at != [] {
      hide Renumbered;
      var front, i := at[..|at| - 1], at[|at| - 1];
      assert at == front + [i] && forall j :: j in at <==> j in front || j == i;
      RenumberedWhole(ms, front);
      RenumberedGrows(ms, {}, front, i);
      if i < |ms| {
        KeptWhole(ms[..i]);
        assert Moved(ms, {}, i) == Some(i);
        assert Renumbered(ms, {}, at) == Renumbered(ms, {}, front) + [i];
        if Renumbered(ms, {}, at) == at {
          assert Renumbered(ms, {}, front) == at[..|at| - 1];
        }
      } else {
        assert i in at && |Renumbered(ms, {}, at)| < |at|;
      }
    }
  }

  lemma ReindexedWhole(ms: seq<Mapping>, index: Positions)
    ensures Reindexed(ms, {}, index) == index <==> Clean(ms, index)
  {
    hide Renumbered;
    var now := Reindexed(ms, {}, index);
    forall key | key in index
      ensures Renumbered(ms, {}, index[key]) == index[key] <==> forall i | i in index[key] :: i < |ms|
    {
      RenumberedWhole(ms, index[key]);
    }
    if now == index {
      forall key | key in index
        ensures index[key] != [] && Renumbered(ms, {}, index[key]) == index[key]
      {
        assert key in now;
      }
    }
  }

  // ---- the loop

  /** Renumbers by the table of where everything was moved to. */
  function Through(moved: seq<Option<nat>>, at: seq<nat>): seq<nat> {
    if at == [] then [] else
      var i := at[|at| - 1];
      Through(moved, at[..|at| - 1]) + if i < |moved| && moved[i].Some? then [moved[i].value] else []
  }

  lemma {:induction false} ThroughIsRenumbered(ms: seq<Mapping>, gone: set<string>, moved: seq<Option<nat>>, at: seq<nat>)
    requires |moved| == |ms| && forall i | 0 <= i < |ms| :: moved[i] == Moved(ms, gone, i)
    ensures Through(moved, at) == Renumbered(ms, gone, at)
  {
    if at != [] {
      ThroughIsRenumbered(ms, gone, moved, at[..|at| - 1]);
    }
  }

  method WithoutRoutes(data: RouteData, gone: set<string>) returns (out: RouteData)
    ensures out == Without(data, gone)
  {
    var ms := data.mappings;
    var left: seq<Mapping> := [];
    var moved := new Option<nat>[|ms|](_ => None);
    for i := 0 to |ms|
      invariant left == Kept(ms[..i], gone)
      invariant forall j | 0 <= j < i :: moved[j] == Moved(ms, gone, j)
      invariant forall j | i <= j < |ms| :: moved[j] == None
    {
      assert ms[..i + 1][..i] == ms[..i];
      if ms[i].route !in gone {
        moved[i] := Some(|left|);
        left := left + [ms[i]];
      }
    }
    assert ms[..|ms|] == ms;
    var table := moved[..];
    forall at: seq<nat> {:trigger Through(table, at)} {
      ThroughIsRenumbered(ms, gone, table, at);
    }
    var byRoute, byStop := Table(table, data.byRoute), Table(table, data.byStop);
    out := RouteData(left, byRoute, byStop);
  }

  function Table(moved: seq<Option<nat>>, index: Positions): Positions {
    map key | key in index && Through(moved, index[key]) != [] :: Through(moved, index[key])
  }
}
