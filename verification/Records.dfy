/** The records of one feed, as the editor's store keeps them, and the edits a
    draft can carry. Identifiers are opaque strings; a blank identifier is None.
    Positions are opaque: nothing below computes with them. */
module Records {

  datatype Option<+T> = None | Some(value: T)

  type Id = string

  datatype Position = Position(lat: int, lon: int)

  /** What a row of a stop list is. `Other` is a text the editor does not know. */
  datatype StopType =
    | NewStop
    | IntermediateStop
    | JumpStop
    | RouteCorrection
    | HiddenStop
    | Other(text: string)

  /** One row of a route's stop list. `stageNo` is None when it is not a number. */
  datatype Row = Row(
    sequence: int,
    stop: Option<Id>,
    kind: StopType,
    stageNo: Option<int>,
    stageName: string,
    markerId: Option<string>,
    marker: Option<Position>)

  /** A stop (location type 0) or a station (location type 1). */
  datatype Stop = Stop(
    name: string,
    position: Position,
    locationType: int,
    parent: Option<Id>,
    platform: Option<string>,
    deleted: bool,
    mergedInto: Option<Id>,
    version: int)

  datatype Route = Route(shortName: string, active: bool, deleted: bool, version: int)

  /** The tables of one feed. The same type serves as an overlay: tables holding
      only the records a draft has written. */
  datatype Feed = Feed(
    stops: map<Id, Stop>,
    routes: map<Id, Route>,
    rows: map<Id, seq<Row>>)

  /** What a merge keeps of the record that goes away. */
  datatype Keep = Keep(nameOfMerged: bool, positionOfMerged: bool)

  /** The members a station change sets, in order, and the platform labels it sets. */
  datatype Members = Members(want: seq<Id>, codes: map<Id, Option<string>>)

  datatype Edit =
    | StopCreate(name: string, position: Position, platform: Option<string>)
    | StopUpdate(newName: Option<string>, newPosition: Option<Position>, newPlatform: Option<Option<string>>)
    | StopDelete
    | StopMerge(into: Id, keep: Keep, intoVersion: Option<int>)
    | RouteCreate(shortName: string)
    | RouteUpdate(newShortName: Option<string>, newActive: Option<bool>)
    | RouteDelete
    | RowsReplace(rows: seq<Row>, baseRows: Option<seq<Row>>)
    | StationCreate(name: string, position: Position, members: Option<Members>)
    | StationUpdate(newName: Option<string>, newPosition: Option<Position>, members: Option<Members>)
    | StationDelete
    | StationMerge(into: Id, keep: Keep, intoVersion: Option<int>)

  /** One change of a draft: the record it is about, the live version it was made
      against, and the coordinate review it was made for. */
  datatype Change = Change(id: nat, key: Id, edit: Edit, base: Option<int>, review: Option<nat>)

  predicate OnStop(e: Edit) {
    e.StopCreate? || e.StopUpdate? || e.StopDelete? || e.StopMerge?
  }

  predicate OnStation(e: Edit) {
    e.StationCreate? || e.StationUpdate? || e.StationDelete? || e.StationMerge?
  }

  predicate IsMerge(e: Edit) {
    e.StopMerge? || e.StationMerge?
  }

  /** The kinds of row no passenger is offered a stop at. */
  predicate Served(kind: StopType) {
    kind != RouteCorrection && kind != JumpStop && kind != HiddenStop
  }
}
