/** A collection document: what the backend keeps in each of its JSON files
    (channels, users, messages, standups, hangman games). A document holds
    the latest id handed out, the list of living ids and the list of
    records, each record carrying its own id (read by a `key` function,
    so that one definition serves every collection).

    The functions Find, Insert, Replace and Remove say what a document
    means; the methods Get, Update and Delete are the store's loops over the
    record list, proved to compute them. */
module Documents {
  import opened Wrappers
  import opened Seqs

  datatype Doc<R> = Doc(latestId: int, ids: seq<int>, records: seq<R>)

  /** The shape a document is reset to: counter 0, no ids, no records. */
  function EmptyDoc<R>(): Doc<R> { Doc(0, [], []) }

  /** The document invariant: the id list lists, position by position, the
      ids of the records; no id occurs twice; every id is positive and at
      most the latest id handed out. */
  ghost predicate Valid<R>(d: Doc<R>, key: R -> int)
  {
    && 0 <= d.latestId
    && |d.ids| == |d.records|
    && NoDup(d.ids)
    && (forall i :: 0 <= i < |d.ids| ==> key(d.records[i]) == d.ids[i])
    && (forall i :: 0 <= i < |d.ids| ==> 0 < d.ids[i] <= d.latestId)
  }

  /** The id the next create hands out. */
  function NextId<R>(d: Doc<R>): int { d.latestId + 1 }

  /** The record stored under `id`, if `id` is a living id. */
  function Find<R>(d: Doc<R>, id: int): Option<R>
  {
    if id in d.ids && IndexOf(d.ids, id) < |d.records|
    then Some(d.records[IndexOf(d.ids, id)])
    else None
  }

  /** Create: bump the counter and append the new id and the record. */
  function Insert<R>(d: Doc<R>, r: R): Doc<R>
  {
    Doc(NextId(d), d.ids + [NextId(d)], d.records + [r])
  }

  /** Update of a living id: the record at that id's position is replaced. */
  function Replace<R>(d: Doc<R>, id: int, r: R): Doc<R>
  {
    if id in d.ids && IndexOf(d.ids, id) < |d.records|
    then d.(records := d.records[IndexOf(d.ids, id) := r])
    else d
  }

  /** Delete of a living id: the id and its record leave the lists; the
      counter stays where it is. */
  function Remove<R>(d: Doc<R>, id: int): Doc<R>
  {
    if id in d.ids && IndexOf(d.ids, id) < |d.records|
    then
      var i := IndexOf(d.ids, id);
      d.(ids := d.ids[..i] + d.ids[i + 1..], records := d.records[..i] + d.records[i + 1..])
    else d
  }

  lemma EmptyValid<R>(key: R -> int)
    ensures Valid(EmptyDoc<R>(), key)
    ensures forall id :: Find(EmptyDoc<R>(), id) == None
  {
  }

  /** The record at position `i` is the one found under the id at position `i`. */
  lemma FindAt<R>(d: Doc<R>, key: R -> int, i: int)
    requires Valid(d, key) && 0 <= i < |d.ids|
    ensures Find(d, d.ids[i]) == Some(d.records[i])
  {
    IndexOfUnique(d.ids, i);
  }

  /** get returns None exactly for ids that are not living, and otherwise a
      record whose own id is the one asked for. */
  lemma FindSpec<R>(d: Doc<R>, key: R -> int, id: int)
    requires Valid(d, key)
    ensures Find(d, id).Some? <==> id in d.ids
    ensures Find(d, id).Some? ==> key(Find(d, id).value) == id && Find(d, id).value in d.records
  {
  }

  /** Create hands out an id no living record has, stores the record under
      it and nothing else changes. */
  lemma {:induction false} InsertSpec<R>(d: Doc<R>, key: R -> int, r: R)
    requires Valid(d, key) && key(r) == NextId(d)
    ensures NextId(d) !in d.ids
    ensures Valid(Insert(d, r), key)
    ensures Insert(d, r).latestId == NextId(d)
    ensures forall x :: Find(Insert(d, r), x) == if x == NextId(d) then Some(r) else Find(d, x)
  {
    var d' := Insert(d, r);
    forall x ensures Find(d', x) == if x == NextId(d) then Some(r) else Find(d, x) {
      if x == NextId(d) {
        FindAt(d', key, |d.ids|);
      } else if x in d.ids {
        var i := IndexOf(d.ids, x);
        FindAt(d, key, i);
        FindAt(d', key, i);
      } else {
        assert x !in d'.ids;
      }
    }
  }

  /** Update of a record under its own id keeps the document valid, keeps
      the id list, and changes what is found under that id only. */
  lemma {:induction false} ReplaceSpec<R>(d: Doc<R>, key: R -> int, id: int, r: R)
    requires Valid(d, key) && key(r) == id
    ensures Valid(Replace(d, id, r), key)
    ensures Replace(d, id, r).ids == d.ids && Replace(d, id, r).latestId == d.latestId
    ensures forall x :: Find(Replace(d, id, r), x) == if x == id && id in d.ids then Some(r) else Find(d, x)
  {
    var d' := Replace(d, id, r);
    forall x ensures Find(d', x) == if x == id && id in d.ids then Some(r) else Find(d, x) {
      if x in d.ids {
        var i := IndexOf(d.ids, x);
        FindAt(d, key, i);
        FindAt(d', key, i);
      }
    }
  }

  /** The record just created is found under the new id. */
  lemma InsertFound<R>(d: Doc<R>, key: R -> int, r: R)
    requires Valid(d, key) && key(r) == NextId(d)
    ensures Valid(Insert(d, r), key)
    ensures Find(Insert(d, r), NextId(d)) == Some(r)
  {
    InsertSpec(d, key, r);
  }

  /** The record just written back is found under its id. */
  lemma ReplaceFound<R>(d: Doc<R>, key: R -> int, id: int, r: R)
    requires Valid(d, key) && key(r) == id && id in d.ids
    ensures Valid(Replace(d, id, r), key)
    ensures Replace(d, id, r).ids == d.ids
    ensures Find(Replace(d, id, r), id) == Some(r)
  {
    ReplaceSpec(d, key, id, r);
  }

  /** A record created and then rewritten under its new id. */
  lemma InsertReplaceFound<R>(d: Doc<R>, key: R -> int, r: R, r': R)
    requires Valid(d, key) && key(r) == NextId(d) && key(r') == NextId(d)
    ensures Valid(Replace(Insert(d, r), NextId(d), r'), key)
    ensures Find(Replace(Insert(d, r), NextId(d), r'), NextId(d)) == Some(r')
  {
    InsertFound(d, key, r);
    ReplaceFound(Insert(d, r), key, NextId(d), r');
  }

  lemma {:induction false} RemoveValid<R>(d: Doc<R>, key: R -> int, id: int)
    requires Valid(d, key) && id in d.ids
    ensures Valid(Remove(d, id), key)
    ensures Remove(d, id).ids == RemoveFirst(d.ids, id)
  {
    var i := IndexOf(d.ids, id);
    var d' := Remove(d, id);
    RemoveFirstNoDup(d.ids, id);
    forall j | 0 <= j < |d'.ids| ensures key(d'.records[j]) == d'.ids[j] && 0 < d'.ids[j] <= d'.latestId {
      CutAt(d.ids, i, j);
      CutAt(d.records, i, j);
    }
  }

  /** Delete keeps the document valid and the counter, drops the id from
      the id list, and after it nothing is found under that id. */
  lemma {:induction false} RemoveSpec<R>(d: Doc<R>, key: R -> int, id: int)
    requires Valid(d, key)
    ensures Valid(Remove(d, id), key)
    ensures Remove(d, id).latestId == d.latestId
    ensures id in d.ids ==> Remove(d, id).ids == RemoveFirst(d.ids, id)
    ensures id !in d.ids ==> Remove(d, id) == d
    ensures forall x :: Find(Remove(d, id), x) == if x == id then None else Find(d, x)
  {
    if id in d.ids {
      var i := IndexOf(d.ids, id);
      var d' := Remove(d, id);
      RemoveValid(d, key, id);
      RemoveFirstNoDup(d.ids, id);
      forall x ensures Find(d', x) == if x == id then None else Find(d, x) {
        if x in d'.ids {
          var j := IndexOf(d'.ids, x);
          CutAt(d.ids, i, j);
          CutAt(d.records, i, j);
          FindAt(d', key, j);
          FindAt(d, key, if j < i then j else j + 1);
        }
      }
    }
  }

  /** Writing a record back over a changed one restores the document. */
  lemma ReplaceRestore<R>(d: Doc<R>, key: R -> int, id: int, r: R)
    requires Valid(d, key) && id in d.ids
    ensures Replace(Replace(d, id, r), id, Find(d, id).value) == d
  {
    var i := IndexOf(d.ids, id);
    assert d.records[i := r][i := d.records[i]] == d.records;
  }

  /** The store's get: return None unless the id is living, otherwise walk
      the records to the one carrying that id. */
  method Get<R>(d: Doc<R>, key: R -> int, id: int) returns (r: Option<R>)
    requires Valid(d, key)
    ensures r == Find(d, id)
    ensures r.Some? <==> id in d.ids
    ensures r.Some? ==> key(r.value) == id
  {
    if id !in d.ids {
      return None;
    }
    ghost var k := IndexOf(d.ids, id);
    var i := 0;
    while key(d.records[i]) != id
      invariant 0 <= i <= k
      invariant forall j :: 0 <= j < i ==> key(d.records[j]) != id
      decreases k - i
    {
      i := i + 1;
    }
    FindAt(d, key, i);
    r := Some(d.records[i]);
  }

  /** The store's update: DataError when the new record's own id is not the
      key; no change when the key is not living; otherwise the record with
      that id is overwritten in place. */
  method Update<R>(d: Doc<R>, key: R -> int, id: int, r: R) returns (d': Doc<R>, res: Result<()>)
    requires Valid(d, key)
    ensures res == if id != key(r) then Err(DataError) else Ok(())
    ensures d' == if id == key(r) then Replace(d, id, r) else d
    ensures Valid(d', key)
  {
    if id != key(r) {
      return d, Err(DataError);
    }
    res := Ok(());
    if id !in d.ids {
      return d, res;
    }
    ghost var k := IndexOf(d.ids, id);
    var i := 0;
    while key(d.records[i]) != key(r)
      invariant 0 <= i <= k
      invariant forall j :: 0 <= j < i ==> key(d.records[j]) != id
      decreases k - i
    {
      i := i + 1;
    }
    IndexOfUnique(d.ids, i);
    d' := d.(records := d.records[i := r]);
    ReplaceSpec(d, key, id, r);
  }

  /** The store's delete: False-y (None in the source) when the id is not
      living; otherwise the id leaves the id list (`list.remove`) and the
      record carrying it leaves the record list. */
  method Delete<R>(d: Doc<R>, key: R -> int, id: int) returns (d': Doc<R>, found: bool)
    requires Valid(d, key)
    ensures found <==> id in d.ids
    ensures d' == Remove(d, id)
    ensures Valid(d', key)
  {
    if id !in d.ids {
      RemoveSpec(d, key, id);
      return d, false;
    }
    var ids := RemoveFirst(d.ids, id);
    ghost var k := IndexOf(d.ids, id);
    var i := 0;
    while key(d.records[i]) != id
      invariant 0 <= i <= k
      invariant forall j :: 0 <= j < i ==> key(d.records[j]) != id
      decreases k - i
    {
      i := i + 1;
    }
    IndexOfUnique(d.ids, i);
    d' := Doc(d.latestId, ids, d.records[..i] + d.records[i + 1..]);
    found := true;
    RemoveSpec(d, key, id);
  }
}
