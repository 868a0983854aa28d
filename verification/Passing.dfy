/** Which changes pass validation, in terms of the tables: for every kind of change an
    if and only if. */
module Passing {
  import opened Records
  import opened Replay
  import opened Texts
  import opened Findings
  import opened RowRules
  import opened Validation
  import Sequences

  predicate LiveStop(f: Feed, sid: Id) {
    sid in f.stops && !f.stops[sid].deleted
  }

  predicate LiveStation(f: Feed, sid: Id) {
    LiveStop(f, sid) && f.stops[sid].locationType == 1
  }

  predicate LiveRoute(f: Feed, rid: Id) {
    rid in f.routes && !f.routes[rid].deleted
  }

  /** No row names the stop. */
  predicate Unused(f: Feed, sid: Id) {
    forall rid, i | rid in f.rows && 0 <= i < |f.rows[rid]| :: f.rows[rid][i].stop != Some(sid)
  }

  /** Another change of the draft edits the route or replaces its stop list. */
  predicate EditedElsewhere(changes: seq<Change>, rid: Id, but: nat) {
    exists i :: 0 <= i < |changes| && changes[i].id != but && changes[i].key == rid
                && (changes[i].edit.RouteUpdate? || changes[i].edit.RowsReplace?)
  }

  /** A stop that can be a member of the station: a live stop of no other station. */
  predicate CanJoin(f: Feed, station: Id, sid: Id) {
    LiveStop(f, sid) && f.stops[sid].locationType == 0
    && (f.stops[sid].parent == None || f.stops[sid].parent == Some(station))
  }

  /** The rows at i and j are served, one after the other. */
  predicate ServedInARow(rows: seq<Row>, i: nat, j: nat) {
    i < j < |rows| && Served(rows[i].kind) && Served(rows[j].kind)
    && forall k | i < k < j :: !Served(rows[k].kind)
  }

  predicate Pair(x: Option<Id>, y: Option<Id>, a: Id, b: Id) {
    (x == Some(a) && y == Some(b)) || (x == Some(b) && y == Some(a))
  }

  /** The two stops are served one right after the other, either way round. */
  ghost predicate ServedTogether(rows: seq<Row>, a: Id, b: Id) {
    exists i: nat, j: nat :: ServedInARow(rows, i, j) && Pair(rows[i].stop, rows[j].stop, a, b)
  }

  /** How many errors of a key the route has live. */
  function ErrorsLive(live: Feed, rid: Id, c: nat, key: Key): nat {
    if rid in live.rows && live.rows[rid] != [] then Errors(ListFindings(live.stops, live.rows[rid], c), key) else 0
  }

  /** A list has no more errors of any key than the route has live. */
  ghost predicate NoNewErrors(live: Feed, f: Feed, rid: Id, rows: seq<Row>, c: nat) {
    forall key: Key :: Errors(ListFindings(f.stops, rows, c), key) <= ErrorsLive(live, rid, c, key)
  }

  /** What the tables must be for a change to pass. */
  ghost predicate Fits(ctx: Context, before: Feed, ch: Change) {
    match ch.edit
    case StopCreate(name, _, _) => ch.key !in before.stops && !Blank(name)
    case StopUpdate(_, _, _) =>
      LiveStop(before, ch.key)
      && (ch.review.Some? ==> ch.review.value in ctx.reviewStops && ctx.reviewStops[ch.review.value] == ch.key)
    case StopDelete => LiveStop(before, ch.key) && Unused(ctx.final, ch.key)
    case StopMerge(into, _, _) =>
      LiveStop(before, ch.key) && LiveStop(before, into)
      && forall rid | rid in before.rows && Names(before.rows[rid], ch.key) :: !ServedTogether(before.rows[rid], ch.key, into)
    case RouteCreate(number) => ch.key !in before.routes && !Blank(number)
    case RouteUpdate(_, _) => LiveRoute(before, ch.key)
    case RouteDelete => LiveRoute(before, ch.key) && !EditedElsewhere(ctx.changes, ch.key, ch.id)
    case RowsReplace(rows, _) => LiveRoute(before, ch.key) && NoNewErrors(ctx.live, before, ch.key, rows, ch.id)
    case StationCreate(name, _, members) =>
      ch.key !in before.stops && !Blank(name) && members.Some?
      && forall sid | sid in members.value.want :: CanJoin(before, ch.key, sid)
    case StationUpdate(_, _, members) =>
      LiveStation(before, ch.key)
      && (members.Some? ==> forall sid | sid in members.value.want :: CanJoin(before, ch.key, sid))
    case StationDelete => LiveStation(before, ch.key)
    case StationMerge(into, _, _) => LiveStop(before, ch.key) && LiveStop(before, into)
  }

  // ---- each kind

  lemma UsedIsNamed(f: Feed, sid: Id)
    ensures RoutesUsing(f.rows, sid) == {} <==> Unused(f, sid)
  {
    if !Unused(f, sid) {
      var rid, i :| rid in f.rows && 0 <= i < |f.rows[rid]| && f.rows[rid][i].stop == Some(sid);
      assert Names(f.rows[rid], sid) && rid in RoutesUsing(f.rows, sid);
    } else {
      assert forall rid | rid in f.rows :: !Names(f.rows[rid], sid);
    }
  }

  lemma {:induction false} LastCall(rows: seq<Row>)
    ensures LastServed(rows) < 0 <==> ServedStops(rows) == []
    ensures LastServed(rows) >= 0 ==> ServedStops(rows)[|ServedStops(rows)| - 1] == rows[LastServed(rows)].stop
  {
    if rows != [] {
      LastCall(rows[..|rows| - 1]);
    }
  }

  lemma TogetherGrows(front: seq<Row>, last: Row, a: Id, b: Id)
    ensures var j := LastServed(front);
            ServedTogether(front + [last], a, b)
            <==> ServedTogether(front, a, b) || (Served(last.kind) && j >= 0 && Pair(front[j].stop, last.stop, a, b))
  {
    var rows, m := front + [last], LastServed(front);
    hide LastServed, Pair;
    assert rows[|front|] == last && forall k | 0 <= k < |front| :: rows[k] == front[k];
    if ServedTogether(front, a, b) {
      var i: nat, j: nat :| ServedInARow(front, i, j) && Pair(front[i].stop, front[j].stop, a, b);
      assert ServedInARow(rows, i, j);
    }
    if Served(last.kind) && m >= 0 && Pair(front[m].stop, last.stop, a, b) {
      assert ServedInARow(rows, m, |front|);
    }
    if ServedTogether(rows, a, b) {
      var i: nat, j: nat :| ServedInARow(rows, i, j) && Pair(rows[i].stop, rows[j].stop, a, b);
      if j < |front| {
        assert ServedInARow(front, i, j);
      } else {
        assert j == |front| && i == m;
      }
    }
  }

  lemma RepeatGrows(calls: seq<Option<Id>>, call: Option<Id>, a: Id, b: Id)
    ensures var more := calls + [call];
            (exists i :: 0 <= i < |more| - 1 && RepeatsAt(more, i, a, b))
            <==> (exists i :: 0 <= i < |calls| - 1 && RepeatsAt(calls, i, a, b))
                 || (calls != [] && Pair(calls[|calls| - 1], call, a, b))
  {
    var more := calls + [call];
    assert forall i | 0 <= i < |calls| - 1 :: RepeatsAt(more, i, a, b) <==> RepeatsAt(calls, i, a, b);
    if calls != [] {
      PairIs(calls[|calls| - 1], call, a, b);
      assert RepeatsAt(more, |calls| - 1, a, b) <==> Pair(calls[|calls| - 1], call, a, b);
    }
    hide RepeatsAt, Pair;
  }

  lemma PairIs(x: Option<Id>, y: Option<Id>, a: Id, b: Id)
    ensures {x, y} == {Some(a), Some(b)} <==> Pair(x, y, a, b)
  {
    assert x in {x, y} && y in {x, y} && Some(a) in {Some(a), Some(b)} && Some(b) in {Some(a), Some(b)};
  }

  /** The repeat check is about what is served one right after the other. */
  lemma {:induction false} RepeatIsTogether(rows: seq<Row>, a: Id, b: Id)
    ensures WouldRepeat(rows, a, b) <==> ServedTogether(rows, a, b)
  {
    if rows != [] {
      hide Pair, RepeatsAt, ServedTogether, LastServed;
      var front, last := rows[..|rows| - 1], rows[|rows| - 1];
      Sequences.FrontAndLast(rows);
      RepeatIsTogether(front, a, b);
      TogetherGrows(front, last, a, b);
      LastCall(front);
      RepeatGrows(ServedStops(front), last.stop, a, b);
      assert ServedStops(rows) == if Served(last.kind) then ServedStops(front) + [last.stop] else ServedStops(front);
    }
  }

  lemma MergePasses(ctx: Context, before: Feed, ch: Change)
    requires IsMerge(ch.edit)
    ensures Clean(MergeFindings(before, ch)) <==> Fits(ctx, before, ch)
  {
    hide WouldRepeat, ServedTogether, Names;
    if ch.edit.StationMerge? {
      CleanStationMerge(before, ch);
    } else {
      CleanStopMerge(before, ch);
      forall rid | rid in before.rows
        ensures WouldRepeat(before.rows[rid], ch.key, ch.edit.into) <==> ServedTogether(before.rows[rid], ch.key, ch.edit.into)
      {
        RepeatIsTogether(before.rows[rid], ch.key, ch.edit.into);
      }
    }
    hide Clean, MergeFindings;
  }

  lemma StopEditPasses(ctx: Context, before: Feed, ch: Change)
    requires ch.edit.StopCreate? || ch.edit.StopUpdate? || ch.edit.StopDelete?
    ensures Clean(StopEditFindings(ctx, before, ch)) <==> Fits(ctx, before, ch)
  {
    hide Blank;
    match ch.edit
    case StopCreate(name, _, _) =>
      CleanParts(When(ch.key in before.stops, ch.id, StopIdTaken, ch.key), When(Blank(name), ch.id, MissingField, ch.key));
      CleanWhen(ch.key in before.stops, ch.id, StopIdTaken, ch.key);
      CleanWhen(Blank(name), ch.id, MissingField, ch.key);
    case StopUpdate(_, _, _) =>
      var mismatch := ch.review.Some? && (ch.review.value !in ctx.reviewStops || ctx.reviewStops[ch.review.value] != ch.key);
      CleanParts(GoneFindings(before.stops, ch.key, ch.id), When(mismatch, ch.id, PositionReviewMismatch, ch.key));
      CleanGone(before.stops, ch.key, ch.id);
      CleanWhen(mismatch, ch.id, PositionReviewMismatch, ch.key);
    case StopDelete =>
      var used := RoutesUsing(ctx.final.rows, ch.key) != {};
      CleanParts(GoneFindings(before.stops, ch.key, ch.id), When(used, ch.id, StopInUse, ch.key));
      CleanGone(before.stops, ch.key, ch.id);
      CleanWhen(used, ch.id, StopInUse, ch.key);
      UsedIsNamed(ctx.final, ch.key);
  }

  lemma EditorsAre(changes: seq<Change>, rid: Id, but: nat)
    ensures EditorsOf(changes, rid) - {but} != {} <==> EditedElsewhere(changes, rid, but)
  {
    if EditedElsewhere(changes, rid, but) {
      var i :| 0 <= i < |changes| && changes[i].id != but && changes[i].key == rid
               && (changes[i].edit.RouteUpdate? || changes[i].edit.RowsReplace?);
      assert changes[i].id in EditorsOf(changes, rid) - {but};
    } else {
      assert EditorsOf(changes, rid) <= {but};
    }
  }

  lemma RouteEditPasses(ctx: Context, before: Feed, ch: Change)
    requires ch.edit.RouteCreate? || ch.edit.RouteUpdate? || ch.edit.RouteDelete?
    ensures Clean(RouteFindings(ctx, before, ch)) <==> Fits(ctx, before, ch)
  {
    hide Blank, EditorsOf, EditedElsewhere;
    match ch.edit
    case RouteCreate(number) =>
      CleanParts(When(ch.key in before.routes, ch.id, RouteExists, ch.key), When(Blank(number), ch.id, MissingField, ch.key));
      CleanWhen(ch.key in before.routes, ch.id, RouteExists, ch.key);
      CleanWhen(Blank(number), ch.id, MissingField, ch.key);
    case RouteUpdate(_, _) =>
      CleanWhen(RouteMissing(before.routes, ch.key), ch.id, UnknownRoute, ch.key);
    case RouteDelete =>
      var missing, edited := RouteMissing(before.routes, ch.key), EditorsOf(ctx.changes, ch.key) - {ch.id} != {};
      CleanParts(When(missing, ch.id, UnknownRoute, ch.key), When(edited, ch.id, RouteHasChanges, ch.key));
      CleanWhen(missing, ch.id, UnknownRoute, ch.key);
      CleanWhen(edited, ch.id, RouteHasChanges, ch.key);
      EditorsAre(ctx.changes, ch.key, ch.id);
  }

  /** Grading leaves no error exactly when no key has more errors than it had live. */
  lemma GradedClean(found: seq<Finding>, live: seq<Finding>)
    ensures Clean(GradedAgainst(found, live)) <==> forall key: Key :: Errors(found, key) <= Errors(live, key)
  {
    var graded := GradedAgainst(found, live);
    hide Clean, Errors, GradedAgainst;
    forall key: Key
      ensures Errors(graded, key) == 0 <==> Errors(found, key) <= Errors(live, key)
    {
      GradeBlocksOnlyNewProblems(found, live, key);
    }
    CleanMeansNoErrors(graded);
    if Clean(graded) {
      forall key: Key
        ensures Errors(found, key) <= Errors(live, key)
      {
        assert Errors(graded, key) == 0;
      }
    } else {
      var key :| Errors(graded, key) != 0;
      assert Errors(found, key) > Errors(live, key);
    }
  }

  lemma NewErrorsAre(live: Feed, f: Feed, rid: Id, rows: seq<Row>, c: nat)
    ensures Clean(ReplaceFindings(f.stops, live, rid, rows, c)) <==> NoNewErrors(live, f, rid, rows, c)
  {
    hide ListFindings, Errors, GradedAgainst, Clean;
    var found := ListFindings(f.stops, rows, c);
    if RowsOf(live.rows, rid) == [] {
      CleanMeansNoErrors(found);
      if Clean(found) {
        forall key: Key
          ensures Errors(found, key) <= ErrorsLive(live, rid, c, key)
        {
          assert Errors(found, key) == 0;
        }
      } else {
        var key :| Errors(found, key) != 0;
        assert Errors(found, key) > ErrorsLive(live, rid, c, key);
      }
    } else {
      var had := ListFindings(live.stops, RowsOf(live.rows, rid), c);
      assert forall key: Key :: ErrorsLive(live, rid, c, key) == Errors(had, key);
      GradedClean(found, had);
      if Clean(GradedAgainst(found, had)) {
        forall key: Key
          ensures Errors(found, key) <= ErrorsLive(live, rid, c, key)
        {
          assert Errors(found, key) <= Errors(had, key);
        }
      } else {
        var key :| Errors(found, key) > Errors(had, key);
        assert Errors(found, key) > ErrorsLive(live, rid, c, key);
      }
    }
  }

  lemma RowsPass(ctx: Context, before: Feed, ch: Change)
    requires ch.edit.RowsReplace?
    ensures Clean(RouteFindings(ctx, before, ch)) <==> Fits(ctx, before, ch)
  {
    hide Clean, NoNewErrors, ReplaceFindings;
    var missing := RouteMissing(before.routes, ch.key);
    CleanParts(When(missing, ch.id, UnknownRoute, ch.key),
               ReplaceFindings(before.stops, ctx.live, ch.key, ch.edit.rows, ch.id));
    CleanWhen(missing, ch.id, UnknownRoute, ch.key);
    NewErrorsAre(ctx.live, before, ch.key, ch.edit.rows, ch.id);
  }

  /** In particular a list that decomposes into fare stages passes for any live route. */
  lemma FareListPasses(ctx: Context, before: Feed, ch: Change)
    requires ch.edit.RowsReplace? && LiveRoute(before, ch.key) && FareList(before.stops, ch.edit.rows)
    ensures Clean(RouteFindings(ctx, before, ch))
  {
    CleanListIsFareList(before.stops, ch.edit.rows, ch.id);
    assert NoNewErrors(ctx.live, before, ch.key, ch.edit.rows, ch.id);
    hide ListFindings, Clean, NoNewErrors;
    RowsPass(ctx, before, ch);
  }

  lemma MembersFit(f: Feed, station: Id, want: seq<Id>)
    ensures (forall sid | sid in want :: MemberProblem(f.stops, station, sid).None?)
       <==> forall sid | sid in want :: CanJoin(f, station, sid)
  {
    forall sid | sid in want
      ensures MemberProblem(f.stops, station, sid).None? <==> CanJoin(f, station, sid)
    {
    }
  }

  lemma StationEditPasses(ctx: Context, before: Feed, ch: Change)
    requires OnStation(ch.edit) && !ch.edit.StationMerge?
    ensures Clean(StationFindings(before, ch)) <==> Fits(ctx, before, ch)
  {
    hide Blank, MemberProblem, CanJoin;
    match ch.edit
    case StationCreate(name, _, members) =>
      var taken, unnamed := When(ch.key in before.stops, ch.id, StopIdTaken, ch.key), When(Blank(name), ch.id, MissingField, ch.key);
      var rest := if members.None? then [Err(ch.id, MissingField, ch.key)]
                  else MemberFindings(before.stops, ch.key, members.value.want, ch.id);
      CleanParts(taken + unnamed, rest);
      CleanParts(taken, unnamed);
      CleanWhen(ch.key in before.stops, ch.id, StopIdTaken, ch.key);
      CleanWhen(Blank(name), ch.id, MissingField, ch.key);
      if members.Some? {
        CleanMembers(before.stops, ch.key, members.value.want, ch.id);
        MembersFit(before, ch.key, members.value.want);
      } else {
        assert rest[0] in rest;
      }
    case StationUpdate(_, _, members) =>
      var missing := StationMissing(before.stops, ch.key);
      var rest := if members.None? then [] else MemberFindings(before.stops, ch.key, members.value.want, ch.id);
      CleanParts(When(missing, ch.id, UnknownStation, ch.key), rest);
      CleanWhen(missing, ch.id, UnknownStation, ch.key);
      if members.Some? {
        CleanMembers(before.stops, ch.key, members.value.want, ch.id);
        MembersFit(before, ch.key, members.value.want);
      }
    case StationDelete =>
      CleanWhen(StationMissing(before.stops, ch.key), ch.id, UnknownStation, ch.key);
  }

  /** Every change, of whatever kind, passes exactly when the tables fit it. */
  lemma ChangePassesExactly(ctx: Context, before: Feed, ch: Change)
    ensures Clean(ChangeFindings(ctx, before, ch)) <==> Fits(ctx, before, ch)
  {
    hide Clean, Fits;
    if IsMerge(ch.edit) {
      MergePasses(ctx, before, ch);
    } else if ch.edit.RowsReplace? {
      RowsPass(ctx, before, ch);
    } else if OnStop(ch.edit) {
      StopEditPasses(ctx, before, ch);
    } else if OnStation(ch.edit) {
      StationEditPasses(ctx, before, ch);
    } else {
      RouteEditPasses(ctx, before, ch);
    }
  }

  lemma {:induction false} FindingsPass(ctx: Context, n: nat)
    requires n <= |ctx.changes|
    ensures Clean(FindingsUpTo(ctx, n))
       <==> forall k | 0 <= k < n :: Fits(ctx, Projected(ctx.live, ctx.changes[..k]), ctx.changes[k])
  {
    hide ChangeFindings, Fits, Projected;
    if n == 0 {
      assert FindingsUpTo(ctx, 0) == [];
    } else {
      var last := ChangeFindings(ctx, Projected(ctx.live, ctx.changes[..n - 1]), ctx.changes[n - 1]);
      assert FindingsUpTo(ctx, n) == FindingsUpTo(ctx, n - 1) + last;
      hide FindingsUpTo;
      FindingsPass(ctx, n - 1);
      CleanParts(FindingsUpTo(ctx, n - 1), last);
      ChangePassesExactly(ctx, Projected(ctx.live, ctx.changes[..n - 1]), ctx.changes[n - 1]);
    }
  }

  /** A draft passes exactly when every change fits the data it is replayed on. */
  lemma DraftPassesExactly(live: Feed, changes: seq<Change>, reviewStops: map<nat, Id>)
    ensures Valid(live, changes, reviewStops)
       <==> forall k | 0 <= k < |changes| ::
              Fits(Context(live, Projected(live, changes), changes, reviewStops), Projected(live, changes[..k]), changes[k])
  {
    hide Clean, FindingsUpTo, Fits, Projected;
    FindingsPass(ContextOf(live, changes, reviewStops), |changes|);
  }
}
