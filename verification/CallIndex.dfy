/** The inverted index from a stop to the calls made at it, against a plain scan
    of the stop lists. */
module CallIndex {
  import opened Records
  import opened Replay

  datatype Call = Call(route: Id, sequence: int)

  type Index = map<Id, seq<Call>>

  function At(idx: Index, sid: Id): seq<Call> {
    if sid in idx then idx[sid] else []
  }

  /** The calls one stop list makes at a stop, by scanning it. */
  function Calls(rid: Id, rows: seq<Row>, sid: Id): seq<Call> {
    if rows == [] then [] else
      var last := rows[|rows| - 1];
      Calls(rid, rows[..|rows| - 1], sid) + (if last.stop == Some(sid) then [Call(rid, last.sequence)] else [])
  }

  /** One route's entries, in order. */
  function Of(calls: seq<Call>, rid: Id): seq<Call> {
    if calls == [] then [] else
      var last := calls[|calls| - 1];
      Of(calls[..|calls| - 1], rid) + (if last.route == rid then [last] else [])
  }

  /** Every entry but one route's, in order. */
  function Without(calls: seq<Call>, rid: Id): seq<Call> {
    if calls == [] then [] else
      var last := calls[|calls| - 1];
      Without(calls[..|calls| - 1], rid) + (if last.route != rid then [last] else [])
  }

  /** The index lists, for every stop and route, exactly the calls a scan finds,
      in the order of the stop list, and nothing else. */
  ghost predicate Indexed(rows: map<Id, seq<Row>>, idx: Index) {
    forall sid: Id, rid: Id {:trigger Of(At(idx, sid), rid)} :: Of(At(idx, sid), rid) == Calls(rid, RowsOf(rows, rid), sid)
  }

  /** As above, except that one route's entries still are those of other rows. */
  ghost predicate IndexedExcept(rows: map<Id, seq<Row>>, idx: Index, except: Id, list: seq<Row>) {
    forall sid: Id, rid: Id {:trigger Of(At(idx, sid), rid)} ::
      Of(At(idx, sid), rid) == if rid == except then Calls(except, list, sid) else Calls(rid, RowsOf(rows, rid), sid)
  }

  /** Midway through dropping one route's entries: those under `todo` are left. */
  ghost predicate PartlyDropped(rows: map<Id, seq<Row>>, idx: Index, rid: Id, list: seq<Row>, todo: set<Id>) {
    forall sid: Id, r: Id {:trigger Of(At(idx, sid), r)} ::
      Of(At(idx, sid), r)
      == if r != rid then Calls(r, RowsOf(rows, r), sid) else if sid in todo then Calls(rid, list, sid) else []
  }

  /** The stops a stop list names. */
  function NamedStops(list: seq<Row>): set<Id> {
    set i | 0 <= i < |list| && list[i].stop.Some? :: list[i].stop.value
  }

  lemma {:induction false} NotNamedNoCalls(rid: Id, list: seq<Row>, sid: Id)
    requires sid !in NamedStops(list)
    ensures Calls(rid, list, sid) == []
  {
    CallsExactlyWhereNamed(rid, list, sid);
    forall i | 0 <= i < |list|
      ensures list[i].stop != Some(sid)
    {
      assert list[i].stop.Some? ==> list[i].stop.value in NamedStops(list);
    }
  }

  lemma {:induction false} NoneDropped(rows: map<Id, seq<Row>>, idx: Index, rid: Id, list: seq<Row>)
    requires IndexedExcept(rows, idx, rid, list)
    ensures PartlyDropped(rows, idx, rid, list, NamedStops(list))
  {
    var todo := NamedStops(list);
    forall sid: Id, r: Id {:trigger Of(At(idx, sid), r)}
      ensures Of(At(idx, sid), r)
           == if r != rid then Calls(r, RowsOf(rows, r), sid) else if sid in todo then Calls(rid, list, sid) else []
    {
      if sid !in todo {
        NotNamedNoCalls(rid, list, sid);
      }
    }
  }

  lemma {:induction false} OneMoreDropped(rows: map<Id, seq<Row>>, idx: Index, rid: Id, list: seq<Row>, todo: set<Id>, gone: Id)
    requires PartlyDropped(rows, idx, rid, list, todo)
    ensures PartlyDropped(rows, idx[gone := Without(At(idx, gone), rid)], rid, list, todo - {gone})
  {
    var idx' := idx[gone := Without(At(idx, gone), rid)];
    forall sid: Id, r: Id {:trigger Of(At(idx', sid), r)}
      ensures Of(At(idx', sid), r)
           == if r != rid then Calls(r, RowsOf(rows, r), sid)
              else if sid in todo - {gone} then Calls(rid, list, sid) else []
    {
      assert Of(At(idx, sid), r)
          == if r != rid then Calls(r, RowsOf(rows, r), sid) else if sid in todo then Calls(rid, list, sid) else [];
      if sid == gone {
        OfWithout(At(idx, gone), rid, r);
      } else {
        assert At(idx', sid) == At(idx, sid);
      }
    }
  }

  /** Appending one row's call to its stop's entries indexes one more row. */
  function WithCall(idx: Index, rid: Id, row: Row): Index {
    if row.stop.None? then idx
    else idx[row.stop.value := At(idx, row.stop.value) + [Call(rid, row.sequence)]]
  }

  lemma {:induction false} OneMoreIndexed(rows: map<Id, seq<Row>>, idx: Index, rid: Id, list: seq<Row>, row: Row)
    requires IndexedExcept(rows, idx, rid, list)
    ensures IndexedExcept(rows, WithCall(idx, rid, row), rid, list + [row])
  {
    var idx' := WithCall(idx, rid, row);
    forall sid: Id, r: Id {:trigger Of(At(idx', sid), r)}
      ensures Of(At(idx', sid), r)
           == if r == rid then Calls(rid, list + [row], sid) else Calls(r, RowsOf(rows, r), sid)
    {
      assert Of(At(idx, sid), r)
          == if r == rid then Calls(rid, list, sid) else Calls(r, RowsOf(rows, r), sid);
      CallsAppend(rid, list, row, sid);
      if row.stop == Some(sid) {
        OfAppend(At(idx, sid), Call(rid, row.sequence), r);
      } else {
        assert At(idx', sid) == At(idx, sid);
      }
    }
  }

  lemma {:induction false} OfAppend(calls: seq<Call>, e: Call, rid: Id)
    ensures Of(calls + [e], rid) == Of(calls, rid) + (if e.route == rid then [e] else [])
  {
    assert (calls + [e])[..|calls|] == calls;
  }

  lemma {:induction false} OfWithout(calls: seq<Call>, gone: Id, rid: Id)
    ensures Of(Without(calls, gone), rid) == if rid == gone then [] else Of(calls, rid)
  {
    if calls != [] {
      var front, last := calls[..|calls| - 1], calls[|calls| - 1];
      OfWithout(front, gone, rid);
      if last.route != gone {
        OfAppend(Without(front, gone), last, rid);
      } else {
        assert Without(calls, gone) == Without(front, gone);
        assert rid != gone ==> Of(calls, rid) == Of(front, rid);
      }
    }
  }

  lemma {:induction false} CallsAppend(rid: Id, rows: seq<Row>, row: Row, sid: Id)
    ensures Calls(rid, rows + [row], sid)
         == Calls(rid, rows, sid) + (if row.stop == Some(sid) then [Call(rid, row.sequence)] else [])
  {
    assert (rows + [row])[..|rows|] == rows;
  }

  lemma {:induction false} CallsExactlyWhereNamed(rid: Id, rows: seq<Row>, sid: Id)
    ensures Calls(rid, rows, sid) != [] <==> Names(rows, sid)
    ensures forall e | e in Calls(rid, rows, sid) :: e.route == rid
  {
    if rows != [] {
      CallsExactlyWhereNamed(rid, rows[..|rows| - 1], sid);
    }
  }

  lemma {:induction false} MemberOf(calls: seq<Call>, e: Call)
    ensures e in calls <==> e in Of(calls, e.route)
    ensures forall x, rid :: x in Of(calls, rid) ==> x.route == rid
  {
    if calls != [] {
      var front, last := calls[..|calls| - 1], calls[|calls| - 1];
      MemberOf(front, e);
      assert calls == front + [last];
    }
  }

  /** Which routes the index says call at a stop: exactly those whose list names it. */
  lemma IndexFindsRoutes(rows: map<Id, seq<Row>>, idx: Index, sid: Id)
    requires Indexed(rows, idx)
    ensures (set e | e in At(idx, sid) :: e.route) == (set rid | rid in rows && Names(rows[rid], sid))
  {
    forall e | e in At(idx, sid)
      ensures e.route in rows && Names(rows[e.route], sid)
    {
      MemberOf(At(idx, sid), e);
      CallsExactlyWhereNamed(e.route, RowsOf(rows, e.route), sid);
    }
    forall rid | rid in rows && Names(rows[rid], sid)
      ensures exists e :: e in At(idx, sid) && e.route == rid
    {
      CallsExactlyWhereNamed(rid, rows[rid], sid);
      assert Of(At(idx, sid), rid) == Calls(rid, RowsOf(rows, rid), sid);
      var e := Of(At(idx, sid), rid)[0];
      MemberOf(At(idx, sid), e);
    }
  }

  lemma {:induction false} CountOf(calls: seq<Call>, e: Call)
    ensures multiset(calls)[e] == multiset(Of(calls, e.route))[e]
  {
    if calls != [] {
      var front, last := calls[..|calls| - 1], calls[|calls| - 1];
      CountOf(front, e);
      assert calls == front + [last];
    }
  }

  /** As a multiset of (route, sequence), a stop's entries are the scan's. */
  lemma IndexIsTheScan(rows: map<Id, seq<Row>>, idx: Index, sid: Id, e: Call)
    requires Indexed(rows, idx)
    ensures multiset(At(idx, sid))[e] == multiset(Calls(e.route, RowsOf(rows, e.route), sid))[e]
  {
    CountOf(At(idx, sid), e);
  }
}
