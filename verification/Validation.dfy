/** What the validator finds in a draft: each change against the data just before
    it, stop deletions against the data after the whole draft. */
module Validation {
  import opened Records
  import opened Replay
  import opened Findings
  import opened RowRules
  import opened Texts
  import opened Ordering

  /** Why a referenced stop no longer exists. */
  function Gone(stops: map<Id, Stop>, sid: Id): Option<Code> {
    if sid in stops && stops[sid].deleted && stops[sid].mergedInto.Some? then Some(StopMergedAway)
    else if sid !in stops || stops[sid].deleted then Some(UnknownStop)
    else None
  }

  function GoneFindings(stops: map<Id, Stop>, sid: Id, c: nat): seq<Finding> {
    var p := Gone(stops, sid);
    if p.None? then [] else [Err(c, p.value, sid)]
  }

  /** The stops of the served rows, in order. */
  function ServedStops(rows: seq<Row>): seq<Option<Id>> {
    if rows == [] then [] else
      ServedStops(rows[..|rows| - 1])
      + (if Served(rows[|rows| - 1].kind) then [rows[|rows| - 1].stop] else [])
  }

  predicate RepeatsAt(calls: seq<Option<Id>>, i: nat, key: Id, into: Id)
    requires i + 1 < |calls|
  {
    {calls[i], calls[i + 1]} == {Some(key), Some(into)}
  }

  /** A merge would make the route stop at the kept stop twice in a row. */
  predicate WouldRepeat(rows: seq<Row>, key: Id, into: Id) {
    var calls := ServedStops(rows);
    exists i :: 0 <= i < |calls| - 1 && RepeatsAt(calls, i, key, into)
  }

  function RepeatFindings(rows: map<Id, seq<Row>>, rids: seq<Id>, key: Id, into: Id, c: nat): seq<Finding> {
    if rids == [] then [] else
      var rid := rids[0];
      When(rid in rows && WouldRepeat(rows[rid], key, into), c, MergeWouldRepeatStop, rid)
      + RepeatFindings(rows, rids[1..], key, into, c)
  }

  function MemberProblem(stops: map<Id, Stop>, station: Id, sid: Id): Option<Code> {
    if Gone(stops, sid).Some? then Gone(stops, sid)
    else if stops[sid].locationType != 0 then Some(MemberIsStation)
    else if stops[sid].parent != None && stops[sid].parent != Some(station) then Some(MemberHasStation)
    else None
  }

  function MemberFindings(stops: map<Id, Stop>, station: Id, want: seq<Id>, c: nat): seq<Finding> {
    if want == [] then [] else
      var p := MemberProblem(stops, station, want[0]);
      (if p.None? then [] else [Err(c, p.value, want[0])]) + MemberFindings(stops, station, want[1..], c)
  }

  /** The changes of a draft that edit a route or its stop list. */
  function EditorsOf(changes: seq<Change>, rid: Id): set<nat> {
    set i | 0 <= i < |changes| && changes[i].key == rid
            && (changes[i].edit.RowsReplace? || changes[i].edit.RouteUpdate?) :: changes[i].id
  }

  predicate StationMissing(stops: map<Id, Stop>, key: Id) {
    key !in stops || stops[key].locationType != 1 || stops[key].deleted
  }

  predicate RouteMissing(routes: map<Id, Route>, key: Id) {
    key !in routes || routes[key].deleted
  }

  /** The findings of a stop list a draft replaces: what the live list already had
      is excused. */
  function ReplaceFindings(stops: map<Id, Stop>, live: Feed, key: Id, rows: seq<Row>, c: nat): seq<Finding> {
    var found := ListFindings(stops, rows, c);
    if RowsOf(live.rows, key) == [] then found
    else GradedAgainst(found, ListFindings(live.stops, RowsOf(live.rows, key), c))
  }

  /** What is around a change when it is checked: the live data, the data after the
      whole draft, the draft's changes, and the stop each coordinate review is about. */
  datatype Context = Context(live: Feed, final: Feed, changes: seq<Change>, reviewStops: map<nat, Id>)

  function StopEditFindings(ctx: Context, before: Feed, ch: Change): seq<Finding>
    requires OnStop(ch.edit) && !ch.edit.StopMerge?
  {
    match ch.edit
    case StopCreate(name, _, _) =>
      When(ch.key in before.stops, ch.id, StopIdTaken, ch.key) + When(Blank(name), ch.id, MissingField, ch.key)
    case StopUpdate(_, _, _) =>
      GoneFindings(before.stops, ch.key, ch.id)
      + When(ch.review.Some? && (ch.review.value !in ctx.reviewStops || ctx.reviewStops[ch.review.value] != ch.key),
             ch.id, PositionReviewMismatch, ch.key)
    case StopDelete =>
      GoneFindings(before.stops, ch.key, ch.id)
      + When(RoutesUsing(ctx.final.rows, ch.key) != {}, ch.id, StopInUse, ch.key)
  }

  function MergeFindings(before: Feed, ch: Change): seq<Finding>
    requires IsMerge(ch.edit)
  {
    var into := ch.edit.into;
    var gone := GoneFindings(before.stops, ch.key, ch.id) + GoneFindings(before.stops, into, ch.id);
    if gone != [] || ch.edit.StationMerge? then gone
    else RepeatFindings(before.rows, Sorted(RoutesUsing(before.rows, ch.key)), ch.key, into, ch.id)
  }

  function RouteFindings(ctx: Context, before: Feed, ch: Change): seq<Finding>
    requires ch.edit.RouteCreate? || ch.edit.RouteUpdate? || ch.edit.RouteDelete? || ch.edit.RowsReplace?
  {
    match ch.edit
    case RouteCreate(shortName) =>
      When(ch.key in before.routes, ch.id, RouteExists, ch.key) + When(Blank(shortName), ch.id, MissingField, ch.key)
    case RouteUpdate(_, _) =>
      When(RouteMissing(before.routes, ch.key), ch.id, UnknownRoute, ch.key)
    case RouteDelete =>
      When(RouteMissing(before.routes, ch.key), ch.id, UnknownRoute, ch.key)
      + When(EditorsOf(ctx.changes, ch.key) - {ch.id} != {}, ch.id, RouteHasChanges, ch.key)
    case RowsReplace(rows, _) =>
      When(RouteMissing(before.routes, ch.key), ch.id, UnknownRoute, ch.key)
      + ReplaceFindings(before.stops, ctx.live, ch.key, rows, ch.id)
  }

  function StationFindings(before: Feed, ch: Change): seq<Finding>
    requires OnStation(ch.edit) && !ch.edit.StationMerge?
  {
    match ch.edit
    case StationCreate(name, _, members) =>
      When(ch.key in before.stops, ch.id, StopIdTaken, ch.key)
      + When(Blank(name), ch.id, MissingField, ch.key)
      + (if members.None? then [Err(ch.id, MissingField, ch.key)]
         else MemberFindings(before.stops, ch.key, members.value.want, ch.id))
    case StationUpdate(_, _, members) =>
      When(StationMissing(before.stops, ch.key), ch.id, UnknownStation, ch.key)
      + (if members.None? then [] else MemberFindings(before.stops, ch.key, members.value.want, ch.id))
    case StationDelete =>
      When(StationMissing(before.stops, ch.key), ch.id, UnknownStation, ch.key)
  }

  function ChangeFindings(ctx: Context, before: Feed, ch: Change): seq<Finding> {
    if IsMerge(ch.edit) then MergeFindings(before, ch)
    else if OnStop(ch.edit) then StopEditFindings(ctx, before, ch)
    else if OnStation(ch.edit) then StationFindings(before, ch)
    else RouteFindings(ctx, before, ch)
  }

  function ContextOf(live: Feed, changes: seq<Change>, reviewStops: map<nat, Id>): Context {
    Context(live, Projected(live, changes), changes, reviewStops)
  }

  /** The findings of the first n changes. */
  function FindingsUpTo(ctx: Context, n: nat): seq<Finding>
    requires n <= |ctx.changes|
  {
    if n == 0 then [] else
      FindingsUpTo(ctx, n - 1) + ChangeFindings(ctx, Projected(ctx.live, ctx.changes[..n - 1]), ctx.changes[n - 1])
  }

  /** Every change's findings, in order. */
  function SetFindings(live: Feed, changes: seq<Change>, reviewStops: map<nat, Id>): seq<Finding> {
    FindingsUpTo(ContextOf(live, changes, reviewStops), |changes|)
  }

  /** The draft passes validation. */
  predicate Valid(live: Feed, changes: seq<Change>, reviewStops: map<nat, Id>) {
    Clean(SetFindings(live, changes, reviewStops))
  }

  lemma {:induction false} CleanUpTo(ctx: Context, n: nat, k: nat)
    requires k < n <= |ctx.changes| && Clean(FindingsUpTo(ctx, n))
    ensures Clean(ChangeFindings(ctx, Projected(ctx.live, ctx.changes[..k]), ctx.changes[k]))
  {
    var last := ChangeFindings(ctx, Projected(ctx.live, ctx.changes[..n - 1]), ctx.changes[n - 1]);
    assert FindingsUpTo(ctx, n) == FindingsUpTo(ctx, n - 1) + last;
    if k < n - 1 {
      CleanUpTo(ctx, n - 1, k);
    }
  }

  /** A draft that passes has no error at any of its changes. */
  lemma ValidEveryChange(live: Feed, changes: seq<Change>, reviewStops: map<nat, Id>, k: nat)
    requires Valid(live, changes, reviewStops) && k < |changes|
    ensures Clean(ChangeFindings(ContextOf(live, changes, reviewStops), Projected(live, changes[..k]), changes[k]))
  {
    CleanUpTo(ContextOf(live, changes, reviewStops), |changes|, k);
  }

  // ---- what a change without errors has checked

  lemma CleanParts(a: seq<Finding>, b: seq<Finding>)
    ensures Clean(a + b) <==> Clean(a) && Clean(b)
  {
    assert forall f | f in a :: f in a + b;
    assert forall f | f in b :: f in a + b;
  }

  lemma CleanWhen(b: bool, c: nat, code: Code, about: string)
    ensures Clean(When(b, c, code, about)) <==> !b
  {
    if b {
      assert Err(c, code, about) in When(b, c, code, about);
    }
  }

  lemma CleanGone(stops: map<Id, Stop>, sid: Id, c: nat)
    ensures Clean(GoneFindings(stops, sid, c)) <==> sid in stops && !stops[sid].deleted
    ensures GoneFindings(stops, sid, c) == [] <==> sid in stops && !stops[sid].deleted
  {
    var p := Gone(stops, sid);
    if p.Some? {
      assert Err(c, p.value, sid) in GoneFindings(stops, sid, c);
    }
  }

  lemma {:induction false} CleanMembers(stops: map<Id, Stop>, station: Id, want: seq<Id>, c: nat)
    ensures Clean(MemberFindings(stops, station, want, c))
       <==> forall sid | sid in want :: MemberProblem(stops, station, sid).None?
  {
    if want != [] {
      CleanMembers(stops, station, want[1..], c);
      var p := MemberProblem(stops, station, want[0]);
      var here := if p.None? then [] else [Err(c, p.value, want[0])];
      CleanParts(here, MemberFindings(stops, station, want[1..], c));
      assert p.Some? ==> here[0] in here;
      assert want == [want[0]] + want[1..];
    }
  }

  lemma {:induction false} CleanRepeats(rows: map<Id, seq<Row>>, rids: seq<Id>, key: Id, into: Id, c: nat)
    ensures Clean(RepeatFindings(rows, rids, key, into, c))
       <==> forall rid | rid in rids && rid in rows :: !WouldRepeat(rows[rid], key, into)
  {
    if rids != [] {
      var rid := rids[0];
      CleanRepeats(rows, rids[1..], key, into, c);
      CleanParts(When(rid in rows && WouldRepeat(rows[rid], key, into), c, MergeWouldRepeatStop, rid),
                 RepeatFindings(rows, rids[1..], key, into, c));
      CleanWhen(rid in rows && WouldRepeat(rows[rid], key, into), c, MergeWouldRepeatStop, rid);
      assert rids == [rids[0]] + rids[1..];
    }
  }

  /** A merge passes exactly when both stops exist and no route would repeat one. */
  lemma CleanStopMerge(before: Feed, ch: Change)
    requires ch.edit.StopMerge?
    ensures Clean(MergeFindings(before, ch))
       <==> ch.key in before.stops && !before.stops[ch.key].deleted
            && ch.edit.into in before.stops && !before.stops[ch.edit.into].deleted
            && forall rid | rid in before.rows :: Names(before.rows[rid], ch.key) ==> !WouldRepeat(before.rows[rid], ch.key, ch.edit.into)
  {
    var into := ch.edit.into;
    CleanGone(before.stops, ch.key, ch.id);
    CleanGone(before.stops, into, ch.id);
    CleanParts(GoneFindings(before.stops, ch.key, ch.id), GoneFindings(before.stops, into, ch.id));
    CleanRepeats(before.rows, Sorted(RoutesUsing(before.rows, ch.key)), ch.key, into, ch.id);
  }

  lemma CleanStationMerge(before: Feed, ch: Change)
    requires ch.edit.StationMerge?
    ensures Clean(MergeFindings(before, ch))
       <==> ch.key in before.stops && !before.stops[ch.key].deleted
            && ch.edit.into in before.stops && !before.stops[ch.edit.into].deleted
  {
    CleanGone(before.stops, ch.key, ch.id);
    CleanGone(before.stops, ch.edit.into, ch.id);
    CleanParts(GoneFindings(before.stops, ch.key, ch.id), GoneFindings(before.stops, ch.edit.into, ch.id));
  }

  /** When the live list has no reference error, a replaced list that passes has no
      unsound row: the grading excuses none. */
  lemma CleanReplace(ctx: Context, before: Feed, ch: Change)
    requires ch.edit.RowsReplace? && Clean(RouteFindings(ctx, before, ch))
    requires AllSound(ctx.live.stops, RowsOf(ctx.live.rows, ch.key))
    ensures AllSound(before.stops, ch.edit.rows)
  {
    var rows := ch.edit.rows;
    CleanParts(When(RouteMissing(before.routes, ch.key), ch.id, UnknownRoute, ch.key),
               ReplaceFindings(before.stops, ctx.live, ch.key, rows, ch.id));
    ReferencesNotExcused(before.stops, ctx.live, ch.key, rows, ch.id);
  }

  lemma ReferencesNotExcused(stops: map<Id, Stop>, live: Feed, key: Id, rows: seq<Row>, c: nat)
    requires Clean(ReplaceFindings(stops, live, key, rows, c))
    requires AllSound(live.stops, RowsOf(live.rows, key))
    ensures AllSound(stops, rows)
  {
    var found := ListFindings(stops, rows, c);
    ListIsReferenceFree(stops, rows, c);
    if RowsOf(live.rows, key) != [] && !NoReference(found) {
      var had := ListFindings(live.stops, RowsOf(live.rows, key), c);
      ListIsReferenceFree(live.stops, RowsOf(live.rows, key), c);
      var i :| 0 <= i < |found| && Reference(found[i].key.code);
      NewCodeSurvivesGrade(found, had, found[i]);
    }
  }

  lemma ListIsReferenceFree(stops: map<Id, Stop>, rows: seq<Row>, c: nat)
    ensures AllSound(stops, rows) <==> NoReference(ListFindings(stops, rows, c))
    ensures AllErrors(ListFindings(stops, rows, c))
  {
    ListReferences(stops, rows, c);
    if rows != [] {
      JoinedFindings(WalkFindings(stops, rows, c), When(Walk(rows).served < 2, c, TooFewStops, ""));
    }
  }
}
