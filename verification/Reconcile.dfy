// Storing one fetched /jobs page: the asynchronous page view and its synchronous twin in
// the stats collector, each verified against what it does to the committed table.
module Reconcile {
  import opened JobModel
  import opened ListingDedup
  import opened OrmSession
  import opened Options

  // ---- what the upsert loop does, in listing order ----

  // Loaded rows, each overwritten by the listed jobs with its key.
  function Overlay(t: Table, jobs: seq<Listed>, stats: ListStats, now: Time): (r: Table)
    ensures r.Keys == t.Keys
  {
    if jobs == [] then t
    else
      var p := Overlay(t, jobs[..|jobs| - 1], stats, now);
      var j := jobs[|jobs| - 1];
      if j.key in t then p[j.key := Upserted(Some(p[j.key]), j, stats, now)] else p
  }

  // One new object for every listed job whose key has no committed row.
  function NewRows(t: Table, jobs: seq<Listed>, stats: ListStats, now: Time): seq<Row> {
    if jobs == [] then []
    else
      var p := NewRows(t, jobs[..|jobs| - 1], stats, now);
      var j := jobs[|jobs| - 1];
      if j.key in t then p else p + [Upserted(None, j, stats, now)]
  }

  function Inserted(t: Table, jobs: seq<Listed>, stats: ListStats, now: Time): Table {
    Flushed(Overlay(t, jobs, stats, now), NewRows(t, jobs, stats, now), {})
  }

  predicate Accepts(t: Table, jobs: seq<Listed>, stats: ListStats, now: Time) {
    Insertable(t, NewRows(t, jobs, stats, now))
  }

  // ---- what the two sweeps do ----

  function Vanished(t: Table, pending: set<Key>): set<Key> {
    set k <- t | t[k].start.None? && k !in pending
  }

  function RunningRows(t: Table): set<Key> {
    set k <- t | !t[k].deleted && t[k].status.Running?
  }

  lemma StaleAreRunning(t: Table, listed: set<Key>)
    requires Inv(t)
    ensures StaleRows(t, listed) == RunningRows(t) - listed
  {
  }

  function StaleRows(t: Table, listed: set<Key>): set<Key> {
    set k <- t | Stale(t[k], listed)
  }

  function FinalizedTable(t: Table, listed: set<Key>, stats: ListStats): Table {
    map k | k in t :: if Stale(t[k], listed) then Finalized(t[k], stats) else t[k]
  }

  // Counts of displayed rows that scrapyd dropped but the log statistics still have.
  predicate Lacking(r: Row, stats: ListStats) {
    r.pages.None? && r.start.Some? && r.key in stats
  }

  function WithCountsOf(r: Row, stats: ListStats): Row {
    if Lacking(r, stats) then r.(pages := stats[r.key].pages, items := stats[r.key].items) else r
  }

  function Backfilled(t: Table, page: set<Key>, stats: ListStats): Table {
    map k | k in t :: if k in page then WithCountsOf(t[k], stats) else t[k]
  }

  // A view in which some committed rows have been finalized.
  function WithFinalized(view: Table, t: Table, ks: set<Key>, stats: ListStats): Table {
    map k | k in view :: if k in ks && k in t then Finalized(t[k], stats) else view[k]
  }

  // A sweep over a set of rows that passes over some keys has handled one more.
  lemma SweepStep(all: set<Key>, rows: set<Key>, passed: set<Key>, k: Key)
    requires k in rows && rows <= all
    ensures all - (rows - {k}) - passed == all - rows - passed + if k in passed then {} else {k}
  {
  }

  lemma FinalizeOneMore(view: Table, t: Table, ks: set<Key>, stats: ListStats, k: Key)
    requires k in view && k in t
    ensures WithFinalized(view, t, ks + {k}, stats) == WithFinalized(view, t, ks, stats)[k := Finalized(t[k], stats)]
  {
  }

  lemma BackfillOneMore(t: Table, page: set<Key>, stats: ListStats, k: Key)
    requires k in t
    ensures Backfilled(t, page + {k}, stats) == Backfilled(t, page, stats)[k := WithCountsOf(t[k], stats)]
  {
  }

  // ---- the asynchronous phases, each committed on its own ----

  // One listed job written over a record, attribute by attribute.
  method Fill(record: Option<Row>, job: Listed, stats: ListStats, now: Time) returns (r: Row)
    requires record.Some? ==> !Skips(record.value, job)
    ensures r == Upserted(record, job, stats, now)
  {
    r := if record.None? then Blank(job.key, now) else record.value;
    if r.deleted {
      r := r.(deleted := false, pages := None, items := None);
    }
    r := r.(key := job.key, pid := job.pid, start := OrNone(job.start), runtime := OrNone(job.runtime));
    r := r.(finish := OrNone(job.finish), hrefLog := OrNone(job.hrefLog), hrefItems := OrNone(job.hrefItems));
    if job.start == "" {
      r := r.(status := Pending);
    } else if job.finish == "" {
      r := r.(status := Running);
    } else {
      r := r.(status := Finished);
    }
    if job.start == "" {
      r := r.(pages := None, items := None);
    } else if job.key in stats {
      r := r.(pages := stats[job.key].pages, items := stats[job.key].items);
    }
    r := r.(updateTime := now);
  }

  method DbInsert(s: Session, jobs: seq<Listed>, stats: ListStats, now: Time) returns (ok: bool)
    requires s.Valid() && s.Clean()
    modifies s
    ensures s.Valid() && s.Clean()
    ensures ok == Accepts(old(s.table), jobs, stats, now)
    ensures s.table == if ok then Inserted(old(s.table), jobs, stats, now) else old(s.table)
  {
    var records: seq<Row> := [];
    for i := 0 to |jobs|
      invariant s.Valid() && s.table == old(s.table) && s.added == [] && s.doomed == {}
      invariant s.view == Overlay(s.table, jobs[..i], stats, now)
      invariant records == NewRows(s.table, jobs[..i], stats, now)
    {
      var job := jobs[i];
      assert jobs[..i + 1][..i] == jobs[..i];
      var record := s.Lookup(job.key);
      if record.None? {
        var r := Fill(None, job, stats, now);
        records := records + [r];
      } else if !Skips(record.value, job) {
        var r := Fill(record, job, stats, now);
        s.Store(job.key, r);
      } else {
        assert s.view == s.view[job.key := record.value];
      }
    }
    assert jobs[..|jobs|] == jobs;
    s.AddAll(records);
    assert s.added == records && s.doomed == {};
    ok := s.Commit();
  }

  // Marks the vanished pending rows of the committed table for deletion.
  method DeleteVanished(s: Session, jobs: seq<Listed>)
    requires s.Valid() && s.doomed == {}
    modifies s`doomed
    ensures s.Valid() && s.doomed == Vanished(s.table, PendingKeys(jobs))
  {
    var rows := set k <- s.table | s.table[k].start.None?;
    ghost var all := rows;
    while rows != {}
      invariant rows <= all && s.Valid()
      invariant s.doomed == set k <- all - rows | k !in PendingKeys(jobs)
      decreases rows
    {
      var k :| k in rows;
      if k !in PendingKeys(jobs) {
        s.Delete(k);
      }
      rows := rows - {k};
    }
  }

  method DbCleanPending(s: Session, jobs: seq<Listed>) returns (ok: bool)
    requires s.Valid() && s.Clean()
    modifies s
    ensures s.Valid() && s.Clean() && ok
    ensures s.table == old(s.table) - Vanished(old(s.table), PendingKeys(jobs))
  {
    DeleteVanished(s, jobs);
    ok := s.Commit();
  }

  // Sets the finish attributes of one stale record, statement by statement.
  method FinalizeRow(record: Row, stats: ListStats) returns (r: Row)
    ensures r == Finalized(record, stats)
  {
    r := record.(status := Finished, pid := None);
    if r.key in stats {
      var d := stats[r.key];
      r := r.(pages := d.pages, items := d.items);
      if d.runtime != "" {
        r := r.(runtime := Some(d.runtime));
      }
      if d.latest.LogTime? {
        r := r.(finish := Some(d.latest.at));
      }
    }
    if r.finish.None? {
      r := r.(finish := Some(r.updateTime));
    }
  }

  method FinalizeRecord(s: Session, k: Key, stats: ListStats)
    requires s.Valid() && k in s.table
    modifies s`view
    ensures s.Valid() && s.view == old(s.view)[k := Finalized(old(s.view)[k], stats)]
  {
    var record := s.Lookup(k);
    var r := FinalizeRow(record.value, stats);
    s.Store(k, r);
  }

  // The query selects committed running rows; the rows of an unlisted key carry no unsaved writes.
  method FinalizeStale(s: Session, jobs: seq<Listed>, stats: ListStats) returns (finalized: bool)
    requires s.Valid() && Inv(s.table)
    requires forall k :: k in s.table && k !in KeysOf(jobs) ==> s.view[k] == s.table[k]
    modifies s`view
    ensures s.Valid()
    ensures finalized <==> StaleRows(s.table, KeysOf(jobs)) != {}
    ensures s.view == WithFinalized(old(s.view), s.table, StaleRows(s.table, KeysOf(jobs)), stats)
  {
    var listed := KeysOf(jobs);
    var rows := RunningRows(s.table);
    ghost var all, done := rows, {};
    finalized := false;
    assert WithFinalized(s.view, s.table, done, stats) == s.view;
    while rows != {}
      invariant rows <= all && s.Valid()
      invariant done == all - rows - listed && (finalized <==> done != {})
      invariant s.view == WithFinalized(old(s.view), s.table, done, stats)
      decreases rows
    {
      var k :| k in rows;
      SweepStep(all, rows, listed, k);
      if k !in listed {
        FinalizeOneMore(old(s.view), s.table, done, stats, k);
        FinalizeRecord(s, k, stats);
        finalized := true;
        done := done + {k};
      }
      rows := rows - {k};
    }
    assert done == all - listed;
    StaleAreRunning(s.table, listed);
  }

  method Backfill(s: Session, page: set<Key>, stats: ListStats)
    requires s.Valid() && s.Clean() && Inv(s.table) && page <= s.table.Keys
    modifies s
    ensures s.Valid() && s.Clean()
    ensures s.table == Backfilled(old(s.table), page, stats)
  {
    var rows, dirty := page, false;
    assert Backfilled(s.table, page - rows - {}, stats) == s.table;
    while rows != {}
      invariant rows <= page && s.Valid() && s.table == old(s.table) && s.added == [] && s.doomed == {}
      invariant s.view == Backfilled(s.table, page - rows - {}, stats)
      invariant !dirty ==> s.view == s.table
      decreases rows
    {
      var k :| k in rows;
      var j := s.Lookup(k);
      BackfillOneMore(s.table, page - rows - {}, stats, k);
      assert s.view[k] == s.table[k] && s.table[k].key == k;
      if j.value.pages.None? && j.value.start.Some? && k in stats {
        s.Store(k, j.value.(pages := stats[k].pages, items := stats[k].items));
        dirty := true;
      }
      SweepStep(page, rows, {}, k);
      rows := rows - {k};
    }
    assert page - rows - {} == page;
    if dirty {
      ghost var view := s.view;
      assert Flushed(view, [], {}) == view;
      var _ := s.Commit();
    }
  }

  // ---- the upsert loop, key by key ----

  // One row under the listed jobs that carry its key, in listing order.
  function Fold(r: Row, jobs: seq<Listed>, k: Key, stats: ListStats, now: Time): Row {
    if jobs == [] then r
    else
      var p := Fold(r, jobs[..|jobs| - 1], k, stats, now);
      var j := jobs[|jobs| - 1];
      if j.key == k then Upserted(Some(p), j, stats, now) else p
  }

  lemma {:induction false} OverlayIsFold(t: Table, jobs: seq<Listed>, stats: ListStats, now: Time)
    ensures forall k :: k in t ==> Overlay(t, jobs, stats, now)[k] == Fold(t[k], jobs, k, stats, now)
  {
    if jobs != [] {
      OverlayIsFold(t, jobs[..|jobs| - 1], stats, now);
    }
  }

  lemma KeysOfSnoc(jobs: seq<Listed>)
    requires jobs != []
    ensures KeysOf(jobs) == KeysOf(jobs[..|jobs| - 1]) + {jobs[|jobs| - 1].key}
  {
    assert jobs == jobs[..|jobs| - 1] + [jobs[|jobs| - 1]];
  }

  lemma {:induction false} FoldOfLast(r: Row, jobs: seq<Listed>, k: Key, stats: ListStats, now: Time)
    ensures k !in KeysOf(jobs) ==> Fold(r, jobs, k, stats, now) == r
    ensures k in KeysOf(jobs) && DistinctKeys(jobs) ==>
              Fold(r, jobs, k, stats, now) == Upserted(Some(r), Last(jobs, k).value, stats, now)
  {
    if jobs != [] {
      FoldOfLast(r, jobs[..|jobs| - 1], k, stats, now);
      KeysOfSnoc(jobs);
      assert DistinctKeys(jobs) ==> jobs[|jobs| - 1].key !in KeysOf(jobs[..|jobs| - 1]);
    }
  }

  // A duplicated key is fatal exactly when it has no committed row yet.
  ghost predicate NoFreshDuplicate(t: Table, jobs: seq<Listed>) {
    forall i, j :: 0 <= i < j < |jobs| && jobs[i].key == jobs[j].key ==> jobs[i].key in t
  }

  lemma NewRowsStep(t: Table, jobs: seq<Listed>, stats: ListStats, now: Time)
    requires jobs != []
    ensures var j, p := jobs[|jobs| - 1], NewRows(t, jobs[..|jobs| - 1], stats, now);
            var q := NewRows(t, jobs, stats, now);
            if j.key in t then q == p
            else ByKey(q) == ByKey(p)[j.key := Upserted(None, j, stats, now)] &&
                 (Insertable(t, q) <==> Insertable(t, p) && j.key !in ByKey(p))
  {
    var j := jobs[|jobs| - 1];
    UpsertedKey(j, stats, now);
    ByKeySnoc(t, NewRows(t, jobs[..|jobs| - 1], stats, now), Upserted(None, j, stats, now));
  }

  lemma UpsertedKey(j: Listed, stats: ListStats, now: Time)
    ensures Upserted(None, j, stats, now).key == j.key
  {
  }

  lemma ByKeySnoc(t: Table, p: seq<Row>, r: Row)
    ensures ByKey(p + [r]) == ByKey(p)[r.key := r]
    ensures r.key !in t ==> (Insertable(t, p + [r]) <==> Insertable(t, p) && r.key !in ByKey(p))
  {
    assert (p + [r])[..|p|] == p;
  }

  lemma {:induction false} NewRowsByKey(t: Table, jobs: seq<Listed>, stats: ListStats, now: Time)
    ensures forall k :: k in ByKey(NewRows(t, jobs, stats, now)) <==> k in KeysOf(jobs) && k !in t
    ensures forall k :: k in KeysOf(jobs) && k !in t ==>
              ByKey(NewRows(t, jobs, stats, now))[k] == Upserted(None, Last(jobs, k).value, stats, now)
  {
    if jobs != [] {
      NewRowsByKey(t, jobs[..|jobs| - 1], stats, now);
      KeysOfSnoc(jobs);
      NewRowsStep(t, jobs, stats, now);
    }
  }

  lemma NoFreshDuplicateStep(t: Table, jobs: seq<Listed>)
    requires jobs != []
    ensures var n := |jobs| - 1;
            NoFreshDuplicate(t, jobs) <==>
            NoFreshDuplicate(t, jobs[..n]) && (jobs[n].key in KeysOf(jobs[..n]) ==> jobs[n].key in t)
  {
    var n := |jobs| - 1;
    if jobs[n].key in KeysOf(jobs[..n]) {
      var i :| 0 <= i < n && jobs[..n][i].key == jobs[n].key;
      assert jobs[i].key == jobs[n].key;
    }
    forall i, j | 0 <= i < j < n && NoFreshDuplicate(t, jobs) && jobs[i].key == jobs[j].key
      ensures jobs[..n][i].key in t
    {
    }
    forall i, j | 0 <= i < j < |jobs| && NoFreshDuplicate(t, jobs[..n]) && jobs[i].key == jobs[j].key && j < n
      ensures jobs[i].key in t
    {
      assert jobs[..n][i].key == jobs[..n][j].key;
    }
    forall i | 0 <= i < n ensures jobs[i].key in KeysOf(jobs[..n]) {
      assert jobs[..n][i] == jobs[i];
    }
  }

  lemma {:induction false} AcceptsIff(t: Table, jobs: seq<Listed>, stats: ListStats, now: Time)
    ensures Accepts(t, jobs, stats, now) <==> NoFreshDuplicate(t, jobs)
  {
    if jobs != [] {
      AcceptsIff(t, jobs[..|jobs| - 1], stats, now);
      NewRowsByKey(t, jobs[..|jobs| - 1], stats, now);
      NewRowsStep(t, jobs, stats, now);
      NoFreshDuplicateStep(t, jobs);
    }
  }

  // ---- the asynchronous pass as a whole ----

  function At(t: Table, k: Key): Option<Row> {
    if k in t then Some(t[k]) else None
  }

  // Every key's row under the record chosen for it.
  function AsyncInserted(t: Table, jobs: seq<Listed>, stats: ListStats, now: Time): Table {
    map k | k in t.Keys + KeysOf(jobs) && (k in t || Choice(jobs, k).Some?) ::
      if Choice(jobs, k).Some? then Upserted(At(t, k), Choice(jobs, k).value, stats, now) else t[k]
  }

  function AsyncTable(t: Table, jobs: seq<Listed>, stats: ListStats, now: Time): Table {
    var t1 := AsyncInserted(t, jobs, stats, now);
    FinalizedTable(t1 - Vanished(t1, PendingKeys(jobs)), KeysOf(jobs), stats)
  }

  lemma LastOfDistinct(s: seq<Listed>)
    requires DistinctKeys(s)
    ensures forall k :: Last(s, k) == Find(s, k)
  {
    forall k ensures Last(s, k) == Find(s, k) {
      FindIs(s, k);
      if k in KeysOf(s) {
        var y := LastIndex(s, k);
      }
    }
  }

  lemma ChoiceIsListed(jobs: seq<Listed>, k: Key)
    ensures Choice(jobs, k).Some? ==> Choice(jobs, k).value in jobs && Choice(jobs, k).value.key == k
    ensures Choice(jobs, k).Some? ==> k in KeysOf(jobs)
  {
  }

  lemma InsertedAt(t: Table, seen: seq<Listed>, k: Key, stats: ListStats, now: Time)
    requires DistinctKeys(seen)
    ensures At(Inserted(t, seen, stats, now), k) ==
            if k in KeysOf(seen) then Some(Upserted(At(t, k), Last(seen, k).value, stats, now)) else At(t, k)
  {
    NewRowsByKey(t, seen, stats, now);
    OverlayIsFold(t, seen, stats, now);
    if k in t {
      FoldOfLast(t[k], seen, k, stats, now);
    }
  }

  lemma AtDecides(a: Table, b: Table)
    requires forall k :: At(a, k) == At(b, k)
    ensures a == b
  {
    forall k ensures (k in a <==> k in b) && (k in a ==> a[k] == b[k]) {
      assert At(a, k) == At(b, k);
    }
  }

  lemma AsyncInsertedAt(t: Table, jobs: seq<Listed>, k: Key, stats: ListStats, now: Time)
    ensures At(AsyncInserted(t, jobs, stats, now), k) ==
            if Choice(jobs, k).Some? then Some(Upserted(At(t, k), Choice(jobs, k).value, stats, now)) else At(t, k)
  {
    ChoiceIsListed(jobs, k);
  }

  lemma InsertedIsPointwise(t: Table, jobs: seq<Listed>, seen: seq<Listed>, stats: ListStats, now: Time)
    requires DistinctKeys(seen) && forall k :: Find(seen, k) == Choice(jobs, k)
    ensures Accepts(t, seen, stats, now)
    ensures Inserted(t, seen, stats, now) == AsyncInserted(t, jobs, stats, now)
  {
    AcceptsIff(t, seen, stats, now);
    LastOfDistinct(seen);
    var a, b := Inserted(t, seen, stats, now), AsyncInserted(t, jobs, stats, now);
    forall k ensures At(a, k) == At(b, k) {
      InsertedAt(t, seen, k, stats, now);
      AsyncInsertedAt(t, jobs, k, stats, now);
      assert Last(seen, k) == Find(seen, k) == Choice(jobs, k);
    }
    AtDecides(a, b);
  }

  lemma BackfillsPresent(t: Table, page: set<Key>, stats: ListStats)
    ensures Backfilled(t, page * t.Keys, stats) == Backfilled(t, page, stats)
  {
  }

  method FinalizeAndCommit(s: Session, jobs: seq<Listed>, stats: ListStats)
    requires s.Valid() && s.Clean() && Inv(s.table)
    modifies s
    ensures s.Valid() && s.Clean() && Inv(s.table)
    ensures s.table == FinalizedTable(old(s.table), KeysOf(jobs), stats)
  {
    FinalizedInv(s.table, KeysOf(jobs), stats);
    var finalized := FinalizeStale(s, jobs, stats);
    assert s.view == FinalizedTable(s.table, KeysOf(jobs), stats);
    if finalized {
      assert Flushed(s.view, [], {}) == s.view;
      var _ := s.Commit();
    }
  }

  // The three committed phases of one page view, then the backfill of the displayed rows.
  method ApiJobs(s: Session, memo: DuplicateMemo, jobs: seq<Listed>, node: string, stats: ListStats, now: Time,
                 page: set<Key>) returns (ok: bool)
    requires s.Valid() && s.Clean() && Inv(s.table)
    modifies s, memo
    ensures s.Valid() && s.Clean() && ok
    ensures s.table == Backfilled(AsyncTable(old(s.table), jobs, stats, now), page, stats)
    ensures Inv(s.table)
  {
    var seen, flashes := HandleUniqueConstraint(memo, jobs, node);
    InsertedIsPointwise(s.table, jobs, seen, stats, now);
    InsertedInv(s.table, jobs, stats, now);
    ok := DbInsert(s, seen, stats, now);
    var _ := DbCleanPending(s, jobs);
    assert Inv(s.table);
    FinalizeAndCommit(s, jobs, stats);
    BackfilledInv(s.table, page, stats);
    BackfillsPresent(s.table, page, stats);
    Backfill(s, page * s.table.Keys, stats);
  }

  // ---- the synchronous twin: one unflushed session for all three phases ----

  method Upsert(s: Session, jobs: seq<Listed>, stats: ListStats, now: Time)
    requires s.Valid() && s.Clean()
    modifies s`view, s`added
    ensures s.Valid() && s.doomed == {}
    ensures s.view == Overlay(s.table, jobs, stats, now)
    ensures s.added == NewRows(s.table, jobs, stats, now)
  {
    for i := 0 to |jobs|
      invariant s.Valid() && s.doomed == {}
      invariant s.view == Overlay(s.table, jobs[..i], stats, now)
      invariant s.added == NewRows(s.table, jobs[..i], stats, now)
    {
      var job := jobs[i];
      assert jobs[..i + 1][..i] == jobs[..i];
      var record := s.Lookup(job.key);
      if record.None? {
        var r := Fill(record, job, stats, now);
        s.AddAll([r]);
      } else if !Skips(record.value, job) {
        var r := Fill(record, job, stats, now);
        s.Store(job.key, r);
      } else {
        assert s.view == s.view[job.key := record.value];
      }
    }
    assert jobs[..|jobs|] == jobs;
  }

  function SyncTable(t: Table, jobs: seq<Listed>, stats: ListStats, now: Time): Table {
    Flushed(WithFinalized(Overlay(t, jobs, stats, now), t, StaleRows(t, KeysOf(jobs)), stats),
            NewRows(t, jobs, stats, now), Vanished(t, PendingKeys(jobs)))
  }

  // The collector commits at the end of its cycle; an integrity error rolls the cycle back.
  method SyncServerJobs(s: Session, jobs: seq<Listed>, stats: ListStats, now: Time) returns (ok: bool)
    requires s.Valid() && s.Clean() && Inv(s.table)
    modifies s
    ensures s.Valid() && s.Clean()
    ensures ok <==> NoFreshDuplicate(old(s.table), jobs)
    ensures s.table == if ok then SyncTable(old(s.table), jobs, stats, now) else old(s.table)
    ensures Inv(s.table)
  {
    AcceptsIff(s.table, jobs, stats, now);
    Upsert(s, jobs, stats, now);
    DeleteVanished(s, jobs);
    OverlayIsFold(s.table, jobs, stats, now);
    forall k | k in s.table && k !in KeysOf(jobs) ensures s.view[k] == s.table[k] {
      FoldOfLast(s.table[k], jobs, k, stats, now);
    }
    var _ := FinalizeStale(s, jobs, stats);
    SyncInv(s.table, jobs, stats, now);
    ok := s.Commit();
  }

  // ---- every phase keeps the row invariant ----

  lemma UpsertedOk(prior: Option<Row>, j: Listed, stats: ListStats, now: Time)
    requires prior.Some? ==> RowOk(j.key, prior.value)
    ensures RowOk(j.key, Upserted(prior, j, stats, now))
  {
  }

  lemma InsertedInv(t: Table, jobs: seq<Listed>, stats: ListStats, now: Time)
    requires Inv(t)
    ensures Inv(AsyncInserted(t, jobs, stats, now))
  {
    forall k | k in AsyncInserted(t, jobs, stats, now) ensures RowOk(k, AsyncInserted(t, jobs, stats, now)[k]) {
      ChoiceIsListed(jobs, k);
      if Choice(jobs, k).Some? {
        UpsertedOk(At(t, k), Choice(jobs, k).value, stats, now);
      }
    }
  }

  lemma FinalizedInv(t: Table, listed: set<Key>, stats: ListStats)
    requires Inv(t)
    ensures Inv(FinalizedTable(t, listed, stats))
  {
  }

  lemma BackfilledInv(t: Table, page: set<Key>, stats: ListStats)
    requires Inv(t)
    ensures Inv(Backfilled(t, page, stats))
  {
  }

  lemma {:induction false} FoldOk(r: Row, jobs: seq<Listed>, k: Key, stats: ListStats, now: Time)
    requires RowOk(k, r)
    ensures RowOk(k, Fold(r, jobs, k, stats, now))
  {
    if jobs != [] {
      FoldOk(r, jobs[..|jobs| - 1], k, stats, now);
    }
  }

  lemma NewRowOk(t: Table, jobs: seq<Listed>, stats: ListStats, now: Time, k: Key)
    requires k in ByKey(NewRows(t, jobs, stats, now))
    ensures RowOk(k, ByKey(NewRows(t, jobs, stats, now))[k])
  {
    NewRowsByKey(t, jobs, stats, now);
    UpsertedOk(None, Last(jobs, k).value, stats, now);
  }

  lemma OverlayRowOk(t: Table, jobs: seq<Listed>, stats: ListStats, now: Time, k: Key)
    requires Inv(t) && k in t
    ensures var view := WithFinalized(Overlay(t, jobs, stats, now), t, StaleRows(t, KeysOf(jobs)), stats);
            k in view && RowOk(k, view[k])
  {
    OverlayIsFold(t, jobs, stats, now);
    FoldOk(t[k], jobs, k, stats, now);
  }

  lemma SyncRowOk(t: Table, jobs: seq<Listed>, stats: ListStats, now: Time, k: Key)
    requires Inv(t) && k in SyncTable(t, jobs, stats, now)
    ensures RowOk(k, SyncTable(t, jobs, stats, now)[k])
  {
    if k in ByKey(NewRows(t, jobs, stats, now)) {
      NewRowOk(t, jobs, stats, now, k);
    } else {
      OverlayRowOk(t, jobs, stats, now, k);
    }
  }

  lemma SyncInv(t: Table, jobs: seq<Listed>, stats: ListStats, now: Time)
    requires Inv(t)
    ensures Inv(SyncTable(t, jobs, stats, now))
  {
    forall k | k in SyncTable(t, jobs, stats, now) ensures RowOk(k, SyncTable(t, jobs, stats, now)[k]) {
      SyncRowOk(t, jobs, stats, now, k);
    }
  }
}
