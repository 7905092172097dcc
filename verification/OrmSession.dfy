// A database session over one node's job table. Queries filter on committed columns
// (autoflush is off) but hand out objects that carry the session's own unsaved writes.
module OrmSession {
  import opened JobModel
  import opened Options

  function ByKey(rows: seq<Row>): Table {
    if rows == [] then map[] else ByKey(rows[..|rows| - 1])[rows[|rows| - 1].key := rows[|rows| - 1]]
  }

  // The unique constraint accepts these insertions, one after the other.
  predicate Insertable(t: Table, rows: seq<Row>) {
    rows == [] ||
    var n := |rows| - 1;
    Insertable(t, rows[..n]) && rows[n].key !in t && rows[n].key !in ByKey(rows[..n])
  }

  // The committed table once a session's writes have reached it.
  function Flushed(view: Table, added: seq<Row>, doomed: set<Key>): Table {
    view + ByKey(added) - doomed
  }

  class Session {
    var table: Table     // committed rows, which is what queries filter on
    var view: Table      // the same rows with the session's unsaved writes, which is what queries return
    var added: seq<Row>  // new objects waiting for a flush
    var doomed: set<Key> // rows marked for deletion

    ghost predicate Valid()
      reads this
    {
      view.Keys == table.Keys && doomed <= table.Keys
    }

    ghost predicate Clean()
      reads this
    {
      view == table && added == [] && doomed == {}
    }

    constructor (t: Table)
      ensures table == t && Clean() && Valid()
    {
      table, view, added, doomed := t, t, [], {};
    }

    // scalar_one_or_none of a query by key.
    method Lookup(k: Key) returns (r: Option<Row>)
      requires Valid()
      ensures r == if k in table then Some(view[k]) else None
    {
      r := if k in table then Some(view[k]) else None;
    }

    // Setting attributes of a loaded object.
    method Store(k: Key, r: Row)
      requires Valid() && k in table
      modifies this`view
      ensures Valid() && view == old(view)[k := r]
    {
      view := view[k := r];
    }

    method AddAll(rows: seq<Row>)
      modifies this`added
      ensures added == old(added) + rows
    {
      added := added + rows;
    }

    method Delete(k: Key)
      requires Valid() && k in table
      modifies this`doomed
      ensures Valid() && doomed == old(doomed) + {k}
    {
      doomed := doomed + {k};
    }

    // Flush and commit; an integrity error discards everything the session holds.
    method Commit() returns (ok: bool)
      modifies this
      ensures Clean() && Valid()
      ensures ok == old(Insertable(table, added))
      ensures table == if ok then old(Flushed(view, added, doomed)) else old(table)
    {
      ok := true;
      var i := 0;
      var inserted: Table := map[];
      while i < |added|
        invariant i <= |added|
        invariant inserted == ByKey(added[..i])
        invariant ok == Insertable(table, added[..i])
      {
        assert added[..i + 1][..i] == added[..i];
        if added[i].key in table || added[i].key in inserted {
          ok := false;
        }
        inserted := inserted[added[i].key := added[i]];
        i := i + 1;
      }
      assert added[..i] == added;
      if ok {
        table := view + inserted - doomed;
      }
      view, added, doomed := table, [], {};
    }
  }
}
