/** Writing a batch of records into a table one key at a time. */
module Tables {

  /** `now` is `was` with the writes made so far: those of every key not in `todo`. */
  ghost predicate PartlyWritten<K, V>(was: map<K, V>, now: map<K, V>, writes: map<K, V>, todo: set<K>) {
    && todo <= writes.Keys
    && now.Keys == was.Keys + (writes.Keys - todo)
    && (forall k | k in now :: now[k] == if k in writes && k !in todo then writes[k] else was[k])
  }

  lemma NothingWritten<K, V>(was: map<K, V>, writes: map<K, V>)
    ensures PartlyWritten(was, was, writes, writes.Keys)
  {
  }

  lemma OneMoreWritten<K, V>(was: map<K, V>, now: map<K, V>, writes: map<K, V>, todo: set<K>, k: K)
    requires PartlyWritten(was, now, writes, todo) && k in todo
    ensures PartlyWritten(was, now[k := writes[k]], writes, todo - {k})
  {
  }

  lemma AllWritten<K, V>(was: map<K, V>, now: map<K, V>, writes: map<K, V>)
    requires PartlyWritten(was, now, writes, {})
    ensures now == was + writes
  {
  }

  lemma LayersAssociate<K, V>(a: map<K, V>, b: map<K, V>, c: map<K, V>)
    ensures (a + b) + c == a + (b + c)
  {
    assert ((a + b) + c).Keys == (a + (b + c)).Keys;
  }

  /** A record written after a batch is the batch's last layer. */
  lemma WrittenLast<K, V>(a: map<K, V>, b: map<K, V>, k: K, v: V)
    ensures (a + b)[k := v] == a + (b + map[k := v])
    ensures a[k := v] == a + map[k := v]
  {
    assert (a + b)[k := v].Keys == (a + (b + map[k := v])).Keys;
  }

  lemma AddNothing<K, V>(a: map<K, V>)
    ensures a + map[] == a
  {
  }
}
