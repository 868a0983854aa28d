/** The validator and the conflict check as they run: one pass over the draft's
    changes, each looked at through overlays, the running one advancing. */
module Checking {
  import opened Records
  import opened Replay
  import opened Storage
  import opened Findings
  import opened RowRules
  import opened Ordering
  import opened Validation
  import opened Conflicts
  import CallIndex

  method CheckRepeats(before: Projection, rids: seq<Id>, key: Id, into: Id, c: nat) returns (out: seq<Finding>)
    requires forall rid | rid in rids :: rid in before.View().rows
    ensures out == RepeatFindings(before.View().rows, rids, key, into, c)
  {
    hide WouldRepeat, CallIndex.Indexed, Over;
    ghost var rows := before.View().rows;
    out := [];
    for i := 0 to |rids|
      invariant out + RepeatFindings(rows, rids[i..], key, into, c) == RepeatFindings(rows, rids, key, into, c)
    {
      var rid := rids[i];
      assert rids[i..][0] == rid && rids[i..][1..] == rids[i + 1..];
      var list := before.RouteRows(rid);
      assert rid in rows && list == rows[rid];
      if WouldRepeat(list, key, into) {
        out := out + [Err(c, MergeWouldRepeatStop, rid)];
      }
    }
    assert rids[|rids|..] == [];
  }

  method CheckMerge(before: Projection, ch: Change) returns (out: seq<Finding>)
    requires before.store.Valid() && IsMerge(ch.edit)
    ensures out == MergeFindings(before.View(), ch)
  {
    var into := ch.edit.into;
    var stops := before.View().stops;
    out := GoneFindings(stops, ch.key, ch.id) + GoneFindings(stops, into, ch.id);
    if out == [] && ch.edit.StopMerge? {
      out := CheckRepeats(before, Sorted(before.Using(ch.key)), ch.key, into, ch.id);
    }
  }

  method CheckRows(before: Projection, live: Projection, ch: Change) returns (out: seq<Finding>)
    requires ch.edit.RowsReplace? && before.store == live.store && live.Overlay() == Nothing()
    ensures out == When(RouteMissing(before.View().routes, ch.key), ch.id, UnknownRoute, ch.key)
                   + ReplaceFindings(before.View().stops, live.View(), ch.key, ch.edit.rows, ch.id)
  {
    var rt := before.FindRoute(ch.key);
    out := When(rt.None? || rt.value.deleted, ch.id, UnknownRoute, ch.key);
    var found := ValidateRows(before.View().stops, ch.edit.rows, ch.id);
    var liveRows := live.RouteRows(ch.key);
    if liveRows != [] {
      var had := ValidateRows(live.View().stops, liveRows, ch.id);
      found := Grade(found, had);
    }
    out := out + found;
  }

  /** Findings for one change, against the data just before it and after the set. */
  method ValidateChange(before: Projection, final: Projection, live: Projection, ch: Change,
                        changes: seq<Change>, reviewStops: map<nat, Id>)
    returns (out: seq<Finding>)
    requires before.store.Valid()
    requires before.store == final.store == live.store && live.Overlay() == Nothing()
    ensures out == ChangeFindings(Context(live.View(), final.View(), changes, reviewStops), before.View(), ch)
  {
    var ctx := Context(live.View(), final.View(), changes, reviewStops);
    if IsMerge(ch.edit) {
      out := CheckMerge(before, ch);
    } else if ch.edit.RowsReplace? {
      out := CheckRows(before, live, ch);
    } else if ch.edit.StopDelete? {
      var using := final.Using(ch.key);
      out := GoneFindings(before.View().stops, ch.key, ch.id) + When(using != {}, ch.id, StopInUse, ch.key);
    } else if OnStop(ch.edit) {
      out := StopEditFindings(ctx, before.View(), ch);
    } else if OnStation(ch.edit) {
      out := StationFindings(before.View(), ch);
    } else {
      out := RouteFindings(ctx, before.View(), ch);
    }
  }

  /** Checks change i against the running projection, then replays it there. */
  method CheckNext(final: Projection, live: Projection, running: Projection, changes: seq<Change>, i: nat,
                   reviewStops: map<nat, Id>)
    returns (out: seq<Finding>)
    requires i < |changes| && running.store.Valid()
    requires final.store == live.store == running.store && final != running && live != running
    requires live.Overlay() == Nothing() && final.Overlay() == Replayed(final.store.Tables(), changes)
    requires running.Overlay() == Replayed(final.store.Tables(), changes[..i])
    modifies running
    ensures running.Overlay() == Replayed(final.store.Tables(), changes[..i + 1])
    ensures var feed := final.store.Tables();
            out == ChangeFindings(ContextOf(feed, changes, reviewStops), Projected(feed, changes[..i]), changes[i])
  {
    hide ChangeFindings, Effect, Over, Nothing, CallIndex.Indexed;
    ghost var feed := final.store.Tables();
    ProjectedNothing(feed);
    out := ValidateChange(running, final, live, changes[i], changes, reviewStops);
    assert changes[..i + 1] == changes[..i] + [changes[i]];
    ProjectedAppend(feed, changes[..i], changes[i]);
    running.Apply(changes[i]);
  }

  method CheckAll(final: Projection, live: Projection, running: Projection, changes: seq<Change>, reviewStops: map<nat, Id>)
    returns (out: seq<Finding>)
    requires running.store.Valid()
    requires final.store == live.store == running.store && final != running && live != running
    requires live.Overlay() == running.Overlay() == Nothing()
    requires final.Overlay() == Replayed(final.store.Tables(), changes)
    modifies running
    ensures out == SetFindings(final.store.Tables(), changes, reviewStops)
  {
    ghost var ctx := ContextOf(final.store.Tables(), changes, reviewStops);
    assert changes[..0] == [];
    out := [];
    for i := 0 to |changes|
      invariant running.Overlay() == Replayed(ctx.live, changes[..i])
      invariant out == FindingsUpTo(ctx, i)
    {
      var here := CheckNext(final, live, running, changes, i, reviewStops);
      FindingsNext(ctx, i, here);
      out := out + here;
    }
  }

  method ValidateSet(store: Store, changes: seq<Change>, reviewStops: map<nat, Id>) returns (out: seq<Finding>)
    requires store.Valid()
    ensures out == SetFindings(store.Tables(), changes, reviewStops)
  {
    var final := new Projection(store, changes);
    var live := new Projection(store, []);
    var running := new Projection(store, []);
    out := CheckAll(final, live, running, changes, reviewStops);
  }

  lemma FindingsNext(ctx: Context, i: nat, here: seq<Finding>)
    requires i < |ctx.changes| && here == ChangeFindings(ctx, Projected(ctx.live, ctx.changes[..i]), ctx.changes[i])
    ensures FindingsUpTo(ctx, i + 1) == FindingsUpTo(ctx, i) + here
  {
  }

  /** The changes whose base no longer matches, in the order a commit applies them. */
  method ConflictsFor(store: Store, changes: seq<Change>) returns (out: seq<Conflict>)
    requires store.Valid()
    ensures out == SetConflicts(store.Tables(), changes)
  {
    hide ChangeConflicts, Effect, Over, Replayed, CallIndex.Indexed;
    ghost var feed := store.Tables();
    var running := new Projection(store, []);
    assert changes[..0] == [];
    out := [];
    for i := 0 to |changes|
      invariant running.store == store
      invariant running.Overlay() == Replayed(feed, changes[..i])
      invariant out == ConflictsUpTo(feed, changes, i)
    {
      out := out + ChangeConflicts(store.Tables(), running.View(), changes[i]);
      assert changes[..i + 1] == changes[..i] + [changes[i]];
      ProjectedAppend(feed, changes[..i], changes[i]);
      running.Apply(changes[i]);
    }
  }
}
