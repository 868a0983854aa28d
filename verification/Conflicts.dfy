/** Optimistic concurrency: a change carries the version, or the rows, it was made
    against, and a draft whose bases were overtaken does not go live. */
module Conflicts {
  import opened Records
  import opened Replay

  datatype Conflict = Conflict(change: nat, key: Id)

  predicate StopOvertaken(stops: map<Id, Stop>, sid: Id, base: Option<int>) {
    base.Some? && base.value != 0 && sid in stops && stops[sid].version != base.value
  }

  predicate RouteOvertaken(routes: map<Id, Route>, rid: Id, base: Option<int>) {
    base.Some? && base.value != 0 && rid in routes && routes[rid].version != base.value
  }

  function If(b: bool, c: Conflict): seq<Conflict> {
    if b then [c] else []
  }

  /** The conflicts of one change: versions against the live data, a stop list
      against the data just before the change. */
  function ChangeConflicts(live: Feed, running: Feed, ch: Change): seq<Conflict> {
    match ch.edit
    case StopUpdate(_, _, _) => If(StopOvertaken(live.stops, ch.key, ch.base), Conflict(ch.id, ch.key))
    case StopDelete => If(StopOvertaken(live.stops, ch.key, ch.base), Conflict(ch.id, ch.key))
    case StationUpdate(_, _, _) => If(StopOvertaken(live.stops, ch.key, ch.base), Conflict(ch.id, ch.key))
    case StationDelete => If(StopOvertaken(live.stops, ch.key, ch.base), Conflict(ch.id, ch.key))
    case StopMerge(into, _, intoVersion) =>
      If(StopOvertaken(live.stops, ch.key, ch.base), Conflict(ch.id, ch.key))
      + If(StopOvertaken(live.stops, into, intoVersion), Conflict(ch.id, ch.key))
    case StationMerge(into, _, intoVersion) =>
      If(StopOvertaken(live.stops, ch.key, ch.base), Conflict(ch.id, ch.key))
      + If(StopOvertaken(live.stops, into, intoVersion), Conflict(ch.id, into))
    case RouteUpdate(_, _) => If(RouteOvertaken(live.routes, ch.key, ch.base), Conflict(ch.id, ch.key))
    case RouteDelete => If(RouteOvertaken(live.routes, ch.key, ch.base), Conflict(ch.id, ch.key))
    case RowsReplace(_, baseRows) =>
      If(baseRows.Some? && baseRows.value != RowsOf(running.rows, ch.key), Conflict(ch.id, ch.key))
    case _ => []
  }

  function ConflictsUpTo(live: Feed, changes: seq<Change>, n: nat): seq<Conflict>
    requires n <= |changes|
  {
    if n == 0 then [] else
      ConflictsUpTo(live, changes, n - 1) + ChangeConflicts(live, Projected(live, changes[..n - 1]), changes[n - 1])
  }

  function SetConflicts(live: Feed, changes: seq<Change>): seq<Conflict> {
    ConflictsUpTo(live, changes, |changes|)
  }

  // ---- versions identify content

  /** From one feed to a later one: no record goes, versions never fall, and a record
      whose version is still the same is still the same record. */
  ghost predicate Evolves(older: Feed, newer: Feed) {
    && (forall sid | sid in older.stops ::
          sid in newer.stops && older.stops[sid].version <= newer.stops[sid].version
          && (older.stops[sid].version == newer.stops[sid].version ==> older.stops[sid] == newer.stops[sid]))
    && (forall rid | rid in older.routes ::
          rid in newer.routes && older.routes[rid].version <= newer.routes[rid].version
          && (older.routes[rid].version == newer.routes[rid].version ==> older.routes[rid] == newer.routes[rid]))
  }

  lemma EvolvesTransitive(a: Feed, b: Feed, c: Feed)
    requires Evolves(a, b) && Evolves(b, c)
    ensures Evolves(a, c)
  {
  }

  lemma CommitEvolves(live: Feed, changes: seq<Change>)
    ensures Evolves(live, AfterCommit(live, changes))
  {
    CommitRaisesVersions(live, changes);
  }

  // ---- no lost update

  /** The live stop is the very record that carried this version at an earlier time. */
  predicate SameStop(older: Feed, live: Feed, sid: Id, base: Option<int>) {
    base.Some? && base.value != 0 && sid in older.stops && older.stops[sid].version == base.value
    ==> sid in live.stops && live.stops[sid] == older.stops[sid]
  }

  predicate SameRoute(older: Feed, live: Feed, rid: Id, base: Option<int>) {
    base.Some? && base.value != 0 && rid in older.routes && older.routes[rid].version == base.value
    ==> rid in live.routes && live.routes[rid] == older.routes[rid]
  }

  /** A change is applied to what it was made against: the records its versions named at
      the earlier time, and the rows its base rows are. */
  predicate MadeOn(older: Feed, live: Feed, running: Feed, ch: Change) {
    match ch.edit
    case StopCreate(_, _, _) => true
    case StationCreate(_, _, _) => true
    case RouteCreate(_) => true
    case RouteUpdate(_, _) => SameRoute(older, live, ch.key, ch.base)
    case RouteDelete => SameRoute(older, live, ch.key, ch.base)
    case StopMerge(into, _, version) => SameStop(older, live, ch.key, ch.base) && SameStop(older, live, into, version)
    case StationMerge(into, _, version) => SameStop(older, live, ch.key, ch.base) && SameStop(older, live, into, version)
    case RowsReplace(_, rows) => rows.Some? ==> RowsOf(running.rows, ch.key) == rows.value
    case StopUpdate(_, _, _) => SameStop(older, live, ch.key, ch.base)
    case StopDelete => SameStop(older, live, ch.key, ch.base)
    case StationUpdate(_, _, _) => SameStop(older, live, ch.key, ch.base)
    case StationDelete => SameStop(older, live, ch.key, ch.base)
  }

  /** Change `k` of a draft, with those before it applied. */
  predicate MadeAgainst(older: Feed, live: Feed, changes: seq<Change>, k: nat)
    requires k < |changes|
  {
    MadeOn(older, live, Projected(live, changes[..k]), changes[k])
  }

  lemma {:induction false} NoConflictAt(live: Feed, changes: seq<Change>, n: nat, k: nat)
    requires k < n <= |changes| && ConflictsUpTo(live, changes, n) == []
    ensures ChangeConflicts(live, Projected(live, changes[..k]), changes[k]) == []
  {
    if k < n - 1 {
      NoConflictAt(live, changes, n - 1, k);
    }
  }

  lemma NotOvertakenIsSame(older: Feed, live: Feed, sid: Id, base: Option<int>)
    requires Evolves(older, live)
    ensures !StopOvertaken(live.stops, sid, base) ==> SameStop(older, live, sid, base)
    ensures !RouteOvertaken(live.routes, sid, base) ==> SameRoute(older, live, sid, base)
  {
  }

  /** A draft without conflicts loses no update made since any earlier feed its
      changes' versions were read from. */
  lemma NoLostUpdate(older: Feed, live: Feed, changes: seq<Change>, k: nat)
    requires Evolves(older, live) && SetConflicts(live, changes) == [] && k < |changes|
    ensures MadeAgainst(older, live, changes, k)
  {
    hide ChangeConflicts, MadeOn, Projected, Evolves;
    NoConflictAt(live, changes, |changes|, k);
    NoConflictIsMade(older, live, Projected(live, changes[..k]), changes[k]);
  }

  lemma NoConflictIsMade(older: Feed, live: Feed, running: Feed, ch: Change)
    requires Evolves(older, live) && ChangeConflicts(live, running, ch) == []
    ensures MadeOn(older, live, running, ch)
  {
    NotOvertakenIsSame(older, live, ch.key, ch.base);
    if ch.edit.StopMerge? || ch.edit.StationMerge? {
      NotOvertakenIsSame(older, live, ch.edit.into, ch.edit.intoVersion);
    }
    hide Evolves, SameStop, SameRoute, StopOvertaken, RouteOvertaken;
  }

  // ---- what is up to date

  /** A version given, if any, is that of the record. */
  predicate VersionHolds(live: map<Id, int>, key: Id, base: Option<int>) {
    base.Some? && base.value != 0 && key in live ==> live[key] == base.value
  }

  function StopVersions(live: Feed): map<Id, int> {
    map sid | sid in live.stops :: live.stops[sid].version
  }

  function RouteVersions(live: Feed): map<Id, int> {
    map rid | rid in live.routes :: live.routes[rid].version
  }

  /** Nothing was written since the change was made: its versions are the live ones, and
      its base rows, if it has them, those of the route just before it. */
  predicate UpToDate(live: Feed, running: Feed, ch: Change) {
    match ch.edit
    case StopCreate(_, _, _) => true
    case StationCreate(_, _, _) => true
    case RouteCreate(_) => true
    case StopUpdate(_, _, _) => VersionHolds(StopVersions(live), ch.key, ch.base)
    case StopDelete => VersionHolds(StopVersions(live), ch.key, ch.base)
    case StationUpdate(_, _, _) => VersionHolds(StopVersions(live), ch.key, ch.base)
    case StationDelete => VersionHolds(StopVersions(live), ch.key, ch.base)
    case StopMerge(into, _, version) =>
      VersionHolds(StopVersions(live), ch.key, ch.base) && VersionHolds(StopVersions(live), into, version)
    case StationMerge(into, _, version) =>
      VersionHolds(StopVersions(live), ch.key, ch.base) && VersionHolds(StopVersions(live), into, version)
    case RouteUpdate(_, _) => VersionHolds(RouteVersions(live), ch.key, ch.base)
    case RouteDelete => VersionHolds(RouteVersions(live), ch.key, ch.base)
    case RowsReplace(_, base) =>
      base.Some? ==> base.value == if ch.key in running.rows then running.rows[ch.key] else []
  }

  /** A change conflicts exactly when something was written since it was made. */
  lemma ConflictsExactly(live: Feed, running: Feed, ch: Change)
    ensures ChangeConflicts(live, running, ch) == [] <==> UpToDate(live, running, ch)
  {
    hide StopVersions, RouteVersions;
    VersionsAre(live, ch.key, ch.base);
    if IsMerge(ch.edit) {
      VersionsAre(live, ch.edit.into, ch.edit.intoVersion);
    }
    hide StopOvertaken, RouteOvertaken, VersionHolds;
  }

  lemma VersionsAre(live: Feed, key: Id, base: Option<int>)
    ensures StopOvertaken(live.stops, key, base) <==> !VersionHolds(StopVersions(live), key, base)
    ensures RouteOvertaken(live.routes, key, base) <==> !VersionHolds(RouteVersions(live), key, base)
  {
  }

  lemma {:induction false} ConflictsUpToExactly(live: Feed, changes: seq<Change>, n: nat)
    requires n <= |changes|
    ensures ConflictsUpTo(live, changes, n) == []
       <==> forall k | 0 <= k < n :: UpToDate(live, Projected(live, changes[..k]), changes[k])
  {
    hide UpToDate, ChangeConflicts, Projected;
    if n > 0 {
      ConflictsUpToExactly(live, changes, n - 1);
      ConflictsExactly(live, Projected(live, changes[..n - 1]), changes[n - 1]);
    }
  }

  /** A draft has conflicts exactly when one of its changes is not up to date. */
  lemma DraftConflictsExactly(live: Feed, changes: seq<Change>)
    ensures SetConflicts(live, changes) == []
       <==> forall k | 0 <= k < |changes| :: UpToDate(live, Projected(live, changes[..k]), changes[k])
  {
    ConflictsUpToExactly(live, changes, |changes|);
  }
}
