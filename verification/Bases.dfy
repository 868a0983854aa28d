/** What a change is recorded against when it is added, and that a draft whose records
    were written since does not get through. */
module Bases {
  import opened Records
  import opened Replay
  import opened Conflicts
  import opened Drafts
  import opened Cases
  import opened Steps
  import opened Runs

  predicate Changes(e: Edit) {
    e.StopUpdate? || e.StopDelete? || e.StopMerge? || e.StationUpdate? || e.StationDelete? || e.StationMerge?
  }

  predicate ChangesRoute(e: Edit) {
    e.RouteUpdate? || e.RouteDelete?
  }

  /** The version a change names as its base. */
  predicate BasedOn(live: Feed, ch: Change) {
    && ((OnStop(ch.edit) || OnStation(ch.edit)) && ch.key in live.stops ==> ch.base == Some(live.stops[ch.key].version))
    && ((OnStop(ch.edit) || OnStation(ch.edit)) && ch.key !in live.stops ==> ch.base == None)
    && ((ch.edit.RouteCreate? || ChangesRoute(ch.edit)) && ch.key in live.routes ==> ch.base == Some(live.routes[ch.key].version))
    && ((ch.edit.RouteCreate? || ChangesRoute(ch.edit)) && ch.key !in live.routes ==> ch.base == None)
    && (ch.edit.RowsReplace? ==> ch.base == None)
  }

  /** The payload is recorded as given, but that a station merge without the version of
      the station that stays gets the live one. */
  predicate RecordedAs(live: Feed, given: Edit, now: Edit) {
    if given.StationMerge? && (given.intoVersion == None || given.intoVersion == Some(0)) then
      now == given.(intoVersion := if given.into in live.stops then Some(live.stops[given.into].version) else None)
    else now == given
  }

  /** An added change is the draft's last, under the next id, with the base it was sent
      with if that is one, and else the live version of its record. */
  lemma AddedChange(sys: System, u: User, id: SetId, key: Id, edit: Edit, base: Option<int>, review: Option<nat>)
    requires AddChange(sys, u, id, key, edit, base, review).Done?
    ensures var now := AddChange(sys, u, id, key, edit, base, review).sys;
            && id in sys.sets && id in now.sets
            && var was, changes := sys.sets[id].changes, now.sets[id].changes;
            && |changes| == |was| + 1 && changes[..|was|] == was
            && now == sys.(sets := sys.sets[id := sys.sets[id].(changes := changes)], nextChange := sys.nextChange + 1)
            && var ch := changes[|was|];
            && ch.id == sys.nextChange && ch.key == key && ch.review == review
            && RecordedAs(sys.feed, edit, ch.edit)
            && (base.Some? && base.value != 0 ==> ch.base == base)
            && (base == None || base == Some(0) ==> BasedOn(sys.feed, ch))
  {
    hide AddProblem;
  }

  /** The live record is not the one the change was based on. */
  predicate Stale(live: Feed, ch: Change) {
    && ch.base.Some? && ch.base.value != 0
    && ((Changes(ch.edit) && ch.key in live.stops && live.stops[ch.key].version != ch.base.value)
        || (ChangesRoute(ch.edit) && ch.key in live.routes && live.routes[ch.key].version != ch.base.value))
  }

  lemma StaleIsNotUpToDate(live: Feed, running: Feed, ch: Change)
    requires Stale(live, ch)
    ensures !UpToDate(live, running, ch)
  {
  }

  /** A draft with a stale change is refused, whoever submits or commits it. */
  lemma StaleIsRefused(sys: System, u: User, id: SetId, k: nat)
    requires id in sys.sets && k < |sys.sets[id].changes| && Stale(sys.feed, sys.sets[id].changes[k])
    ensures Submit(sys, u, id).Refused? && Commit(sys, u, id).Refused?
  {
    hide UpToDate, Projected, SetConflicts, Passes, Stale;
    StaleIsNotUpToDate(sys.feed, Projected(sys.feed, sys.sets[id].changes[..k]), sys.sets[id].changes[k]);
    DraftConflictsExactly(sys.feed, sys.sets[id].changes);
  }

  /** The change the add of event `j` put into the draft. */
  function AddedAt(init: System, events: seq<Event>, j: nat): Change
    requires j < |events| && events[j].EAdd? && Accepted(Run(init, events[..j]), events[j])
  {
    var now := Next(Run(init, events[..j]), events[j]);
    AddedAtLast(Run(init, events[..j]), events[j]);
    now.sets[events[j].id].changes[|now.sets[events[j].id].changes| - 1]
  }

  lemma AddedAtLast(sys: System, e: Event)
    requires e.EAdd? && Accepted(sys, e)
    ensures e.id in Next(sys, e).sets && Next(sys, e).sets[e.id].changes != []
  {
    hide AddChange;
    AddedChange(sys, e.u, e.id, e.key, e.edit, e.base, e.review);
  }

  /** The record a change is about is live and at a version that counts. */
  predicate OnLive(live: Feed, edit: Edit, key: Id) {
    || (Changes(edit) && key in live.stops && live.stops[key].version != 0)
    || (ChangesRoute(edit) && key in live.routes && live.routes[key].version != 0)
  }

  /** The record is no longer what it was. */
  predicate WrittenSince(older: Feed, live: Feed, edit: Edit, key: Id) {
    if Changes(edit) then key in older.stops && key in live.stops && live.stops[key] != older.stops[key]
    else key in older.routes && key in live.routes && live.routes[key] != older.routes[key]
  }

  lemma AddedIsStale(sys: System, u: User, id: SetId, key: Id, edit: Edit, base: Option<int>, review: Option<nat>, live: Feed)
    requires AddChange(sys, u, id, key, edit, base, review).Done? && (base == None || base == Some(0))
    requires OnLive(sys.feed, edit, key) && WrittenSince(sys.feed, live, edit, key)
    requires (Changes(edit) ==> live.stops[key].version != sys.feed.stops[key].version)
    requires (ChangesRoute(edit) ==> live.routes[key].version != sys.feed.routes[key].version)
    ensures var changes := AddChange(sys, u, id, key, edit, base, review).sys.sets[id].changes;
            id in AddChange(sys, u, id, key, edit, base, review).sys.sets && changes != [] && Stale(live, changes[|changes| - 1])
  {
    AddedChange(sys, u, id, key, edit, base, review);
    hide AddChange;
  }

  /** Over any run: an update, deletion or merge of a live record is added without a base
      of its own. Whenever the record has been written since, and the draft still holds
      the change as it was added, nobody can submit the draft and nobody can commit it. */
  lemma OvertakenIsRefused(init: System, events: seq<Event>, j: nat, n: nat, v: User, k: nat)
    requires j < n <= |events| && events[j].EAdd? && Accepted(Run(init, events[..j]), events[j])
    requires events[j].base == None || events[j].base == Some(0)
    requires var older, now, e := Run(init, events[..j]).feed, Run(init, events[..n]), events[j];
             && OnLive(older, e.edit, e.key) && WrittenSince(older, now.feed, e.edit, e.key)
             && e.id in now.sets && k < |now.sets[e.id].changes|
             && now.sets[e.id].changes[k] == AddedAt(init, events, j)
    ensures Submit(Run(init, events[..n]), v, events[j].id).Refused?
    ensures Commit(Run(init, events[..n]), v, events[j].id).Refused?
  {
    var s, now, e := Run(init, events[..j]), Run(init, events[..n]), events[j];
    VersionNamesContent(init, events, j, n, e.key);
    hide Run, Submit, Commit, AddChange, Stale, OnLive;
    AddedIsStale(s, e.u, e.id, e.key, e.edit, e.base, e.review, now.feed);
    StaleIsRefused(now, v, e.id, k);
  }
}
