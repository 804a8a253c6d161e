/**
 One BigQuery dataset as its client sees it: a catalog of objects and an access list.

 Every call may fail. A failed update or delete may still have taken effect; a failed create has not.
 There are no concurrent writers.
 */
module ViewCatalog {
  import opened Wrappers
  import opened ViewManifest

  /** The four attributes of a view that the reconciler writes. */
  datatype ViewFields = ViewFields(description: Option<string>, labels: map<string, string>, query: Option<Query>,
                                   legacySql: bool)

  /** `kind` is the reported table type, absent when the service reports none;
      `storage` stands for every attribute an update of the four view fields leaves alone. */
  datatype Object = Object(kind: Option<string>, fields: ViewFields, storage: string)

  type Catalog = map<string, Object>

  datatype AccessEntry = AccessEntry(role: string, entityType: string, entity: string)

  datatype Fetched = Found(item: Object) | NotFound | Unavailable

  datatype Operation = TableRead | Creation | Update | Deletion | Listing | DatasetRead | AccessWrite

  /** What the caller was told: the call worked, the object does not exist, or the call failed. */
  datatype Answer = Worked | Missing | Broke

  /** One client call; dataset calls carry no name. */
  datatype Attempt = Attempt(operation: Operation, name: string, answer: Answer)

  const VIEW := "VIEW"

  function Lookup(c: Catalog, name: string): Option<Object> {
    if name in c then Some(c[name]) else None
  }

  /** Every view refers only to objects that are present. */
  ghost predicate Closed(c: Catalog) {
    forall n :: n in c && c[n].fields.query.Some? ==> c[n].fields.query.value.refs <= c.Keys
  }

  /** How many of the calls failed. */
  ghost function Failures(calls: seq<Attempt>): nat {
    if calls == [] then 0
    else Failures(calls[..|calls| - 1]) + if calls[|calls| - 1].answer == Broke then 1 else 0
  }

  lemma FailuresOneMore(calls: seq<Attempt>, a: Attempt)
    ensures Failures(calls + [a]) == Failures(calls) + if a.answer == Broke then 1 else 0
  {
    assert (calls + [a])[..|calls|] == calls;
  }

  lemma {:induction false} FailuresAdd(calls: seq<Attempt>, more: seq<Attempt>)
    ensures Failures(calls + more) == Failures(calls) + Failures(more)
  {
    if more == [] {
      assert calls + more == calls;
    } else {
      var last := |more| - 1;
      assert (calls + more)[..|calls + more| - 1] == calls + more[..last];
      FailuresAdd(calls, more[..last]);
    }
  }

  /** A count of failures above zero means that some call failed, and the converse. */
  lemma {:induction false} FailuresMeaning(calls: seq<Attempt>)
    ensures Failures(calls) == 0 <==> forall a :: a in calls ==> a.answer != Broke
  {
    if calls != [] {
      var front, last := calls[..|calls| - 1], calls[|calls| - 1];
      assert calls == front + [last];
      FailuresMeaning(front);
    }
  }

  class Dataset {
    var objects: Catalog
    var access: seq<AccessEntry>
    /** Whether the catalog was closed initially and after every write call so far. */
    ghost var alwaysClosed: bool
    /** Every call made so far and its answer. */
    ghost var calls: seq<Attempt>

    constructor (objects: Catalog, access: seq<AccessEntry>)
      ensures this.objects == objects && this.access == access && alwaysClosed == Closed(objects) && calls == []
    {
      this.objects, this.access, this.alwaysClosed, this.calls := objects, access, Closed(objects), [];
    }

    ghost method Note(operation: Operation, name: string, answer: Answer)
      modifies this`calls
      ensures calls == old(calls) + [Attempt(operation, name, answer)]
      ensures Failures(calls) == Failures(old(calls)) + if answer == Broke then 1 else 0
    {
      FailuresOneMore(calls, Attempt(operation, name, answer));
      calls := calls + [Attempt(operation, name, answer)];
    }

    method GetTable(name: string) returns (r: Fetched)
      modifies this`calls
      ensures r.Found? ==> Lookup(objects, name) == Some(r.item)
      ensures r.NotFound? ==> name !in objects
      ensures calls == old(calls) + [Attempt(TableRead, name,
                                             if r.Found? then Worked else if r.NotFound? then Missing else Broke)]
      ensures Failures(calls) == Failures(old(calls)) + if r.Unavailable? then 1 else 0
    {
      if * {
        r := Unavailable;
      } else {
        r := if name in objects then Found(objects[name]) else NotFound;
      }
      Note(TableRead, name, if r.Found? then Worked else if r.NotFound? then Missing else Broke);
    }

    method CreateTable(name: string, fields: ViewFields, storage: string) returns (ok: bool)
      modifies this`objects, this`alwaysClosed, this`calls
      ensures ok ==> name !in old(objects) && objects == old(objects)[name := Object(Some(VIEW), fields, storage)]
      ensures !ok ==> objects == old(objects)
      ensures alwaysClosed == (old(alwaysClosed) && Closed(objects))
      ensures calls == old(calls) + [Attempt(Creation, name, if ok then Worked else Broke)]
      ensures Failures(calls) == Failures(old(calls)) + if ok then 0 else 1
    {
      ok := *;
      if name in objects {
        ok := false;
      }
      if ok {
        objects := objects[name := Object(Some(VIEW), fields, storage)];
      }
      alwaysClosed := alwaysClosed && Closed(objects);
      Note(Creation, name, if ok then Worked else Broke);
    }

    method UpdateTable(name: string, fields: ViewFields) returns (ok: bool)
      modifies this`objects, this`alwaysClosed, this`calls
      ensures ok ==> name in old(objects) && objects == old(objects)[name := old(objects)[name].(fields := fields)]
      ensures !ok ==> objects == old(objects)
                      || (name in old(objects)
                          && objects == old(objects)[name := old(objects)[name].(fields := fields)])
      ensures alwaysClosed == (old(alwaysClosed) && Closed(objects))
      ensures calls == old(calls) + [Attempt(Update, name, if ok then Worked else Broke)]
      ensures Failures(calls) == Failures(old(calls)) + if ok then 0 else 1
    {
      ok := *;
      var effective := *;
      if name !in objects {
        ok := false;
      } else if ok || effective {
        objects := objects[name := objects[name].(fields := fields)];
      }
      alwaysClosed := alwaysClosed && Closed(objects);
      Note(Update, name, if ok then Worked else Broke);
    }

    /** Deleting an absent object counts as success. */
    method DeleteTable(name: string) returns (ok: bool)
      modifies this`objects, this`alwaysClosed, this`calls
      ensures ok ==> objects == old(objects) - {name}
      ensures !ok ==> objects == old(objects) || objects == old(objects) - {name}
      ensures alwaysClosed == (old(alwaysClosed) && Closed(objects))
      ensures calls == old(calls) + [Attempt(Deletion, name, if ok then Worked else Broke)]
      ensures Failures(calls) == Failures(old(calls)) + if ok then 0 else 1
    {
      ok := *;
      var effective := *;
      if ok || effective {
        objects := objects - {name};
      }
      alwaysClosed := alwaysClosed && Closed(objects);
      Note(Deletion, name, if ok then Worked else Broke);
    }

    method ListTables() returns (r: Option<seq<string>>)
      modifies this`calls
      ensures r.Some? ==> forall n :: n in r.value <==> n in objects
      ensures r.Some? ==> forall i, j :: 0 <= i < j < |r.value| ==> r.value[i] != r.value[j]
      ensures calls == old(calls) + [Attempt(Listing, "", if r.Some? then Worked else Broke)]
      ensures Failures(calls) == Failures(old(calls)) + if r.Some? then 0 else 1
    {
      r := None;
      if * {
        Note(Listing, "", Broke);
        return;
      }
      var remaining := objects.Keys;
      var listed: seq<string> := [];
      while remaining != {}
        invariant forall n :: n in objects <==> n in listed || n in remaining
        invariant forall n :: n in listed ==> n !in remaining
        invariant forall i, j :: 0 <= i < j < |listed| ==> listed[i] != listed[j]
        decreases |remaining|
      {
        var n :| n in remaining;
        listed, remaining := listed + [n], remaining - {n};
      }
      Note(Listing, "", Worked);
      r := Some(listed);
    }

    method GetDataset() returns (r: Option<seq<AccessEntry>>)
      modifies this`calls
      ensures r.Some? ==> r.value == access
      ensures calls == old(calls) + [Attempt(DatasetRead, "", if r.Some? then Worked else Broke)]
      ensures Failures(calls) == Failures(old(calls)) + if r.Some? then 0 else 1
    {
      var ok := *;
      r := if ok then Some(access) else None;
      Note(DatasetRead, "", if ok then Worked else Broke);
    }

    method UpdateAccess(entries: seq<AccessEntry>) returns (ok: bool)
      modifies this`access, this`calls
      ensures ok ==> access == entries
      ensures !ok ==> access == entries || access == old(access)
      ensures calls == old(calls) + [Attempt(AccessWrite, "", if ok then Worked else Broke)]
      ensures Failures(calls) == Failures(old(calls)) + if ok then 0 else 1
    {
      ok := *;
      var effective := *;
      if ok || effective {
        access := entries;
      }
      Note(AccessWrite, "", if ok then Worked else Broke);
    }
  }
}
