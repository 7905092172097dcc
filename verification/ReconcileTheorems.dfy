// What reconciliation guarantees: exact contents after a pass, repeatability, agreement of
// the two implementations, and the row invariant over every sequence of listings.
module ReconcileTheorems {
  import opened JobModel
  import opened ListingDedup
  import opened OrmSession
  import opened Options
  import opened Reconcile

  // ---- one key through an asynchronous pass ----

  function Swept(r: Option<Row>, k: Key, jobs: seq<Listed>, stats: ListStats): Option<Row> {
    if r.None? then None
    else if r.value.start.None? && k !in PendingKeys(jobs) then None
    else if Stale(r.value, KeysOf(jobs)) then Some(Finalized(r.value, stats))
    else r
  }

  function Merged(r: Option<Row>, k: Key, jobs: seq<Listed>, stats: ListStats, now: Time): Option<Row> {
    if Choice(jobs, k).Some? then Some(Upserted(r, Choice(jobs, k).value, stats, now)) else r
  }

  lemma AsyncAt(t: Table, jobs: seq<Listed>, k: Key, stats: ListStats, now: Time)
    ensures At(AsyncTable(t, jobs, stats, now), k) == Swept(Merged(At(t, k), k, jobs, stats, now), k, jobs, stats)
  {
    AsyncInsertedAt(t, jobs, k, stats, now);
  }

  predicate IsRunning(r: Option<Row>) {
    r.Some? && !r.value.deleted && r.value.status.Running?
  }

  predicate IsPendingRow(r: Option<Row>) {
    r.Some? && r.value.start.None?
  }

  // The running rows are those whose chosen record runs, except an execution that was
  // soft-deleted after it had been recorded as finished; the rows without a start time are
  // those whose chosen record waits; finished rows that scrapyd dropped are untouched, and
  // running ones it dropped are finished with a finish time.
  lemma PassIsExact(t: Table, jobs: seq<Listed>, stats: ListStats, now: Time, k: Key)
    requires Inv(t) && WellShaped(jobs)
    ensures var r := At(AsyncTable(t, jobs, stats, now), k);
            var c := Choice(jobs, k);
            && (IsRunning(r) <==> c.Some? && ListedStatus(c.value).Running? && !(k in t && Skips(t[k], c.value)))
            && (IsPendingRow(r) <==> c.Some? && ListedStatus(c.value).Pending?)
            && (k in t && k !in KeysOf(jobs) && t[k].status.Finished? ==> r == Some(t[k]))
            && (k in t && k !in KeysOf(jobs) && IsRunning(At(t, k)) ==>
                  r == Some(Finalized(t[k], stats)) && r.value.status.Finished? && r.value.finish.Some?)
            && (k in KeysOf(jobs) ==> r.Some?)
  {
    AsyncAt(t, jobs, k, stats, now);
    ChoiceCoversListing(jobs, k);
    if Choice(jobs, k).Some? {
      ChosenIsKept(At(t, k), k, jobs, stats, now);
      StatusOfUpserted(At(t, k), Choice(jobs, k).value, stats, now);
    } else {
      assert k !in PendingKeys(jobs);
    }
  }

  lemma StatusOfUpserted(r: Option<Row>, c: Listed, stats: ListStats, now: Time)
    requires r.Some? ==> RowOk(c.key, r.value)
    ensures var u := Some(Upserted(r, c, stats, now));
            && (IsRunning(u) <==> ListedStatus(c).Running? && !(r.Some? && Skips(r.value, c)))
            && (IsPendingRow(u) <==> ListedStatus(c).Pending?)
  {
  }

  // A listed key's row survives the sweeps of its own pass.
  lemma ChosenIsKept(r: Option<Row>, k: Key, jobs: seq<Listed>, stats: ListStats, now: Time)
    requires r.Some? ==> RowOk(k, r.value)
    requires Choice(jobs, k).Some?
    ensures Swept(Merged(r, k, jobs, stats, now), k, jobs, stats) == Merged(r, k, jobs, stats, now)
  {
    ChoiceIsListed(jobs, k);
    var c := Choice(jobs, k).value;
    UpsertedOk(r, c, stats, now);
    assert c.start == "" ==> k in PendingKeys(jobs);
  }

  // ---- the same listing again ----

  function NoUpdateTime(r: Row): Row { r.(updateTime := "") }

  function NoTimes(r: Row): Row { r.(createTime := "", updateTime := "") }

  function Erase(t: Table): Table { map k | k in t :: NoTimes(t[k]) }

  // Tables are compared up to the two times of their rows.
  lemma ErasedEqualIff(t: Table, u: Table)
    ensures Erase(t) == Erase(u) <==>
            t.Keys == u.Keys &&
            forall k <- t :: k in u && t[k] == u[k].(createTime := t[k].createTime, updateTime := t[k].updateTime)
  {
    if Erase(t) == Erase(u) {
      assert t.Keys == Erase(t).Keys && u.Keys == Erase(u).Keys;
      forall k | k in t ensures t[k] == u[k].(createTime := t[k].createTime, updateTime := t[k].updateTime) {
        assert Erase(t)[k] == Erase(u)[k];
      }
    }
    if t.Keys == u.Keys &&
       forall k <- t :: k in u && t[k] == u[k].(createTime := t[k].createTime, updateTime := t[k].updateTime)
    {
      assert forall k :: k in t <==> k in t.Keys;
      assert forall k :: k in u <==> k in u.Keys;
      assert Erase(t) == Erase(u);
    }
  }

  function FullPass(t: Table, jobs: seq<Listed>, stats: ListStats, now: Time, page: set<Key>): Table {
    Backfilled(AsyncTable(t, jobs, stats, now), page, stats)
  }

  function Shown(r: Option<Row>, k: Key, page: set<Key>, stats: ListStats): Option<Row> {
    if r.Some? && k in page then Some(WithCountsOf(r.value, stats)) else r
  }

  lemma StoredTwice(r: Option<Row>, c: Listed, stats: ListStats, now: Time, later: Time)
    requires r.Some? ==> RowOk(c.key, r.value)
    ensures var m := Upserted(r, c, stats, now);
            NoUpdateTime(Upserted(Some(m), c, stats, later)) == NoUpdateTime(m)
  {
  }

  lemma StoredTwiceShown(r: Option<Row>, c: Listed, stats: ListStats, now: Time, later: Time)
    requires r.Some? ==> RowOk(c.key, r.value)
    ensures var m := WithCountsOf(Upserted(r, c, stats, now), stats);
            NoUpdateTime(WithCountsOf(Upserted(Some(m), c, stats, later), stats)) == NoUpdateTime(m)
  {
    var u := Upserted(r, c, stats, now);
    var m := WithCountsOf(u, stats);
    if Skips(m, c) {
      assert Upserted(Some(m), c, stats, later) == m;
    } else if Lacking(u, stats) {
      assert u.key == c.key && u.start == OrNone(c.start);
    } else {
      StoredTwice(r, c, stats, now, later);
    }
  }

  // One key through a full pass.
  function PassAt(r: Option<Row>, k: Key, jobs: seq<Listed>, stats: ListStats, now: Time, page: set<Key>): Option<Row> {
    Shown(Swept(Merged(r, k, jobs, stats, now), k, jobs, stats), k, page, stats)
  }

  lemma AgainChosen(r: Option<Row>, k: Key, jobs: seq<Listed>, stats: ListStats, now: Time, later: Time, page: set<Key>,
                    c: Listed)
    requires Choice(jobs, k) == Some(c) && c.key == k && (r.Some? ==> RowOk(k, r.value))
    ensures var once := PassAt(r, k, jobs, stats, now, page);
            var twice := PassAt(once, k, jobs, stats, later, page);
            once.Some? && twice.Some? && NoUpdateTime(once.value) == NoUpdateTime(twice.value)
  {
    ChosenIsKept(r, k, jobs, stats, now);
    var once := Shown(Merged(r, k, jobs, stats, now), k, page, stats);
    UpsertedOk(r, c, stats, now);
    ChosenIsKept(once, k, jobs, stats, later);
    if k in page {
      StoredTwiceShown(r, c, stats, now, later);
    } else {
      StoredTwice(r, c, stats, now, later);
    }
  }

  lemma AgainUnchosen(r: Option<Row>, k: Key, jobs: seq<Listed>, stats: ListStats, now: Time, later: Time,
                      page: set<Key>)
    requires Choice(jobs, k).None? && (r.Some? ==> RowOk(k, r.value))
    ensures var once := PassAt(r, k, jobs, stats, now, page);
            PassAt(once, k, jobs, stats, later, page) == once
  {
  }

  // Storing a record twice, with the sweeps and the backfill in between, changes only the clock.
  lemma AgainAt(r: Option<Row>, k: Key, jobs: seq<Listed>, stats: ListStats, now: Time, later: Time, page: set<Key>)
    requires r.Some? ==> RowOk(k, r.value)
    ensures var once := PassAt(r, k, jobs, stats, now, page);
            var twice := PassAt(once, k, jobs, stats, later, page);
            once.Some? == twice.Some? && (once.Some? ==> NoUpdateTime(once.value) == NoUpdateTime(twice.value))
  {
    if Choice(jobs, k).Some? {
      ChoiceIsListed(jobs, k);
      AgainChosen(r, k, jobs, stats, now, later, page, Choice(jobs, k).value);
    } else {
      AgainUnchosen(r, k, jobs, stats, now, later, page);
    }
  }

  lemma PassIsIdempotent(t: Table, jobs: seq<Listed>, stats: ListStats, now: Time, later: Time, page: set<Key>)
    requires Inv(t)
    ensures var once := FullPass(t, jobs, stats, now, page);
            var twice := FullPass(once, jobs, stats, later, page);
            once.Keys == twice.Keys && forall k :: k in once ==> twice[k] == once[k].(updateTime := twice[k].updateTime)
  {
    var once := FullPass(t, jobs, stats, now, page);
    var twice := FullPass(once, jobs, stats, later, page);
    forall k ensures (k in once <==> k in twice) && (k in once ==> NoUpdateTime(once[k]) == NoUpdateTime(twice[k])) {
      AsyncAt(t, jobs, k, stats, now);
      AsyncAt(once, jobs, k, stats, later);
      AgainAt(At(t, k), k, jobs, stats, now, later, page);
      FullPassAt(t, jobs, k, stats, now, page);
      FullPassAt(once, jobs, k, stats, later, page);
    }
  }

  // ---- the twins ----

  // Rows committed as pending and now listed with a start time: the unflushed session still
  // finds them by their committed null start and deletes them.
  function Lost(t: Table, jobs: seq<Listed>): set<Key> {
    set k <- t | t[k].start.None? && k in KeysOf(jobs) && k !in PendingKeys(jobs)
  }

  lemma DistinctChoice(jobs: seq<Listed>, k: Key)
    requires DistinctKeys(jobs) && WellShaped(jobs)
    ensures Choice(jobs, k) == Last(jobs, k)
    ensures k in PendingKeys(jobs) <==> Last(jobs, k).Some? && Last(jobs, k).value.start == ""
  {
    ChoiceCoversListing(jobs, k);
    LastOfDistinct(jobs);
    FindIs(jobs, k);
  }

  function SyncRow(r: Option<Row>, k: Key, jobs: seq<Listed>, stats: ListStats, now: Time): Option<Row> {
    if IsPendingRow(r) && k !in PendingKeys(jobs) then None
    else if r.Some? && Stale(r.value, KeysOf(jobs)) then Some(Finalized(r.value, stats))
    else Merged(r, k, jobs, stats, now)
  }

  lemma SyncInsertedAt(t: Table, jobs: seq<Listed>, k: Key, stats: ListStats, now: Time)
    requires DistinctKeys(jobs) && WellShaped(jobs)
    ensures At(Inserted(t, jobs, stats, now), k) == Merged(At(t, k), k, jobs, stats, now)
  {
    InsertedAt(t, jobs, k, stats, now);
    DistinctChoice(jobs, k);
  }

  lemma SyncAt(t: Table, jobs: seq<Listed>, k: Key, stats: ListStats, now: Time)
    requires Inv(t) && DistinctKeys(jobs) && WellShaped(jobs)
    ensures At(SyncTable(t, jobs, stats, now), k) == SyncRow(At(t, k), k, jobs, stats, now)
  {
    SyncInsertedAt(t, jobs, k, stats, now);
    NewRowsByKey(t, jobs, stats, now);
    var u, s := Inserted(t, jobs, stats, now), SyncTable(t, jobs, stats, now);
    assert k in Vanished(t, PendingKeys(jobs)) <==> IsPendingRow(At(t, k)) && k !in PendingKeys(jobs);
    assert k in StaleRows(t, KeysOf(jobs)) <==> k in t && Stale(t[k], KeysOf(jobs));
    if k in StaleRows(t, KeysOf(jobs)) {
      assert k !in ByKey(NewRows(t, jobs, stats, now));
    } else {
      assert k !in Vanished(t, PendingKeys(jobs)) ==> At(s, k) == At(u, k);
    }
  }

  function NoTimesOpt(r: Option<Row>): Option<Row> {
    if r.Some? then Some(NoTimes(r.value)) else None
  }

  lemma UpsertedNoTimes(r: Option<Row>, s: Option<Row>, c: Listed, stats: ListStats, now: Time, later: Time)
    requires NoTimesOpt(r) == NoTimesOpt(s)
    ensures NoTimes(Upserted(r, c, stats, now)) == NoTimes(Upserted(s, c, stats, later))
  {
  }

  lemma TwinAt(r: Option<Row>, k: Key, jobs: seq<Listed>, stats: ListStats, now: Time, later: Time)
    requires r.Some? ==> RowOk(k, r.value)
    requires DistinctKeys(jobs) && WellShaped(jobs)
    ensures var lost := IsPendingRow(r) && k in KeysOf(jobs) && k !in PendingKeys(jobs);
            var a := Swept(Merged(r, k, jobs, stats, later), k, jobs, stats);
            && (lost ==> a.Some? && SyncRow(r, k, jobs, stats, now) == None)
            && (!lost ==> NoTimesOpt(SyncRow(r, k, jobs, stats, now)) == NoTimesOpt(a))
  {
    DistinctChoice(jobs, k);
    if Choice(jobs, k).Some? {
      ChosenIsKept(r, k, jobs, stats, later);
      UpsertedNoTimes(r, r, Choice(jobs, k).value, stats, now, later);
      ChoiceIsListed(jobs, k);
    }
  }

  // One cycle of the collector is one page view minus the lost rows.
  lemma TwinsDifferByLostRows(t: Table, jobs: seq<Listed>, stats: ListStats, now: Time, later: Time)
    requires Inv(t) && DistinctKeys(jobs) && WellShaped(jobs)
    ensures Lost(t, jobs) <= AsyncTable(t, jobs, stats, later).Keys
    ensures Erase(SyncTable(t, jobs, stats, now)) == Erase(AsyncTable(t, jobs, stats, later)) - Lost(t, jobs)
  {
    var u, v := SyncTable(t, jobs, stats, now), AsyncTable(t, jobs, stats, later);
    var a, b := Erase(u), Erase(v) - Lost(t, jobs);
    forall k ensures At(a, k) == At(b, k) && (k in Lost(t, jobs) ==> k in v) {
      SyncAt(t, jobs, k, stats, now);
      AsyncAt(t, jobs, k, stats, later);
      TwinAt(At(t, k), k, jobs, stats, now, later);
      assert At(a, k) == NoTimesOpt(At(u, k));
      assert At(b, k) == if k in Lost(t, jobs) then None else NoTimesOpt(At(v, k));
    }
    AtDecides(a, b);
  }

  // ... so the two agree exactly when no waiting job has started since the last commit.
  lemma TwinsAgreeIff(t: Table, jobs: seq<Listed>, stats: ListStats, now: Time, later: Time)
    requires Inv(t) && DistinctKeys(jobs) && WellShaped(jobs)
    ensures Erase(SyncTable(t, jobs, stats, now)) == Erase(AsyncTable(t, jobs, stats, later)) <==> Lost(t, jobs) == {}
  {
    TwinsDifferByLostRows(t, jobs, stats, now, later);
    if Lost(t, jobs) != {} {
      var k :| k in Lost(t, jobs);
      var a, b := Erase(SyncTable(t, jobs, stats, now)), Erase(AsyncTable(t, jobs, stats, later));
      assert a == b - Lost(t, jobs);
      assert k in b && k !in a;
    } else {
      assert Erase(AsyncTable(t, jobs, stats, later)) - {} == Erase(AsyncTable(t, jobs, stats, later));
    }
  }

  // A second cycle over the same listing restores agreement.
  lemma SecondCycleConverges(t: Table, jobs: seq<Listed>, stats: ListStats, now: Time, next: Time, later: Time)
    requires Inv(t) && DistinctKeys(jobs) && WellShaped(jobs)
    ensures Erase(SyncTable(SyncTable(t, jobs, stats, now), jobs, stats, next)) ==
            Erase(AsyncTable(t, jobs, stats, later))
  {
    var u, v := SyncTable(SyncTable(t, jobs, stats, now), jobs, stats, next), AsyncTable(t, jobs, stats, later);
    forall k ensures At(Erase(u), k) == At(Erase(v), k) {
      SecondCycleSame(t, jobs, k, stats, now, next, later);
      assert At(Erase(u), k) == NoTimesOpt(At(u, k));
      assert At(Erase(v), k) == NoTimesOpt(At(v, k));
    }
    AtDecides(Erase(u), Erase(v));
  }

  lemma SecondCycleSame(t: Table, jobs: seq<Listed>, k: Key, stats: ListStats, now: Time, next: Time, later: Time)
    requires Inv(t) && DistinctKeys(jobs) && WellShaped(jobs)
    ensures NoTimesOpt(At(SyncTable(SyncTable(t, jobs, stats, now), jobs, stats, next), k)) ==
            NoTimesOpt(At(AsyncTable(t, jobs, stats, later), k))
  {
    SyncInv(t, jobs, stats, now);
    SyncAt(t, jobs, k, stats, now);
    SyncAt(SyncTable(t, jobs, stats, now), jobs, k, stats, next);
    AsyncAt(t, jobs, k, stats, later);
    SecondCycleAt(At(t, k), k, jobs, stats, now, next, later);
  }

  // A row the cycle keeps is the chosen record written over the one before.
  lemma KeptIsUpserted(r: Option<Row>, k: Key, jobs: seq<Listed>, stats: ListStats, now: Time, c: Listed)
    requires Choice(jobs, k) == Some(c) && c.key == k && c in jobs
    requires r.None? || RowOk(k, r.value)
    requires SyncRow(r, k, jobs, stats, now).Some?
    ensures SyncRow(r, k, jobs, stats, now) == Some(Upserted(r, c, stats, now))
  {
    assert k in KeysOf(jobs);
  }

  lemma KeptIsKeptAgain(r: Option<Row>, k: Key, jobs: seq<Listed>, stats: ListStats, now: Time, next: Time, c: Listed)
    requires Choice(jobs, k) == Some(c) && c.key == k && c in jobs && (r.None? || RowOk(k, r.value))
    ensures SyncRow(Some(Upserted(r, c, stats, now)), k, jobs, stats, next).Some?
  {
    StatusOfUpserted(r, c, stats, now);
    UpsertedOk(r, c, stats, now);
    assert k in KeysOf(jobs) && (c.start == "" ==> k in PendingKeys(jobs));
  }

  lemma SecondCycleStored(r: Option<Row>, k: Key, jobs: seq<Listed>, stats: ListStats, now: Time, next: Time,
                          later: Time)
    requires r.Some? ==> RowOk(k, r.value)
    requires DistinctKeys(jobs) && WellShaped(jobs) && Choice(jobs, k).Some?
    requires SyncRow(r, k, jobs, stats, now).Some?
    ensures NoTimesOpt(SyncRow(SyncRow(r, k, jobs, stats, now), k, jobs, stats, next)) ==
            NoTimesOpt(Merged(r, k, jobs, stats, later))
  {
    ChoiceIsListed(jobs, k);
    var c := Choice(jobs, k).value;
    UpsertedOk(r, c, stats, now);
    KeptIsUpserted(r, k, jobs, stats, now, c);
    KeptIsKeptAgain(r, k, jobs, stats, now, next, c);
    KeptIsUpserted(Some(Upserted(r, c, stats, now)), k, jobs, stats, next, c);
    StoredTwice(r, c, stats, now, next);
    UpsertedNoTimes(r, r, c, stats, now, later);
  }

  lemma SecondCycleAt(r: Option<Row>, k: Key, jobs: seq<Listed>, stats: ListStats, now: Time, next: Time, later: Time)
    requires r.Some? ==> RowOk(k, r.value)
    requires DistinctKeys(jobs) && WellShaped(jobs)
    ensures NoTimesOpt(SyncRow(SyncRow(r, k, jobs, stats, now), k, jobs, stats, next)) ==
            NoTimesOpt(Swept(Merged(r, k, jobs, stats, later), k, jobs, stats))
  {
    DistinctChoice(jobs, k);
    var s1 := SyncRow(r, k, jobs, stats, now);
    if Choice(jobs, k).Some? {
      ChoiceIsListed(jobs, k);
      var c := Choice(jobs, k).value;
      ChosenIsKept(r, k, jobs, stats, later);
      if s1.Some? {
        SecondCycleStored(r, k, jobs, stats, now, next, later);
      } else {
        LostRowIsRebuilt(r.value, c, stats, next, later);
      }
    }
  }

  // Nothing of a waiting row outlives its start, so inserting it afresh loses only the times.
  lemma LostRowIsRebuilt(r: Row, c: Listed, stats: ListStats, next: Time, later: Time)
    requires RowOk(c.key, r) && r.start.None?
    ensures NoTimes(Upserted(None, c, stats, next)) == NoTimes(Upserted(Some(r), c, stats, later))
  {
  }

  // ---- every sequence of listings ----

  datatype Event =
    | PageView(jobs: seq<Listed>, stats: ListStats, now: Time, page: set<Key>)
    | CollectorCycle(jobs: seq<Listed>, stats: ListStats, now: Time)
    | SoftDelete(keys: set<Key>)

  // Collector cycles that would violate the unique constraint are rolled back.
  ghost function After(t: Table, e: Event): Table {
    match e
    case PageView(jobs, stats, now, page) => FullPass(t, jobs, stats, now, page)
    case CollectorCycle(jobs, stats, now) =>
      if NoFreshDuplicate(t, jobs) then SyncTable(t, jobs, stats, now) else t
    case SoftDelete(keys) => map k | k in t :: if k in keys then t[k].(deleted := true) else t[k]
  }

  ghost function Run(t: Table, events: seq<Event>): Table {
    if events == [] then t else After(Run(t, events[..|events| - 1]), events[|events| - 1])
  }

  lemma {:induction false} RunKeepsInv(t: Table, events: seq<Event>)
    requires Inv(t)
    ensures Inv(Run(t, events))
  {
    if events != [] {
      var p, e := Run(t, events[..|events| - 1]), events[|events| - 1];
      RunKeepsInv(t, events[..|events| - 1]);
      match e {
        case PageView(jobs, stats, now, page) =>
          InsertedInv(p, jobs, stats, now);
          var t1 := AsyncInserted(p, jobs, stats, now);
          FinalizedInv(t1 - Vanished(t1, PendingKeys(jobs)), KeysOf(jobs), stats);
          BackfilledInv(AsyncTable(p, jobs, stats, now), page, stats);
        case CollectorCycle(jobs, stats, now) =>
          SyncInv(p, jobs, stats, now);
        case SoftDelete(keys) =>
      }
    }
  }

  // From the empty table, through any history of both implementations: once a page view has
  // been stored, the node's running and waiting rows are exactly what scrapyd listed.
  lemma EveryHistoryIsExact(events: seq<Event>, jobs: seq<Listed>, stats: ListStats, now: Time, page: set<Key>, k: Key)
    requires WellShaped(jobs)
    ensures var t := Run(map[], events);
            var r := At(Run(map[], events + [PageView(jobs, stats, now, page)]), k);
            var c := Choice(jobs, k);
            && (r.Some? ==> RowOk(k, r.value))
            && (IsRunning(r) <==> c.Some? && ListedStatus(c.value).Running? && !(k in t && Skips(t[k], c.value)))
            && (IsPendingRow(r) <==> c.Some? && ListedStatus(c.value).Pending?)
  {
    var t, all := Run(map[], events), events + [PageView(jobs, stats, now, page)];
    RunKeepsInv(map[], events);
    RunKeepsInv(map[], all);
    assert all[..|all| - 1] == events;
    PassIsExact(t, jobs, stats, now, k);
    ShownKeeps(At(AsyncTable(t, jobs, stats, now), k), k, page, stats);
    FullPassAt(t, jobs, k, stats, now, page);
  }

  lemma FullPassAt(t: Table, jobs: seq<Listed>, k: Key, stats: ListStats, now: Time, page: set<Key>)
    ensures At(FullPass(t, jobs, stats, now, page), k) == Shown(At(AsyncTable(t, jobs, stats, now), k), k, page, stats)
  {
  }

  lemma ShownKeeps(r: Option<Row>, k: Key, page: set<Key>, stats: ListStats)
    ensures IsRunning(Shown(r, k, page, stats)) <==> IsRunning(r)
    ensures IsPendingRow(Shown(r, k, page, stats)) <==> IsPendingRow(r)
  {
  }

  // ---- where the twins part ----

  // Through any history: once a page view has stored a job as waiting, a cycle that finds it
  // started deletes its row, while the page view keeps it.
  lemma StartedJobIsLost(events: seq<Event>, seen: seq<Listed>, jobs: seq<Listed>, stats: ListStats, now: Time,
                         page: set<Key>, k: Key)
    requires WellShaped(seen) && Choice(seen, k).Some? && Choice(seen, k).value.start == ""
    requires WellShaped(jobs) && DistinctKeys(jobs) && k in KeysOf(jobs) && k !in PendingKeys(jobs)
    ensures var t := Run(map[], events + [PageView(seen, stats, now, page)]);
            && Inv(t) && k in Lost(t, jobs)
            && k !in SyncTable(t, jobs, stats, now) && k in AsyncTable(t, jobs, stats, now)
  {
    var t := Run(map[], events + [PageView(seen, stats, now, page)]);
    EveryHistoryIsExact(events, seen, stats, now, page, k);
    RunKeepsInv(map[], events + [PageView(seen, stats, now, page)]);
    assert k in Lost(t, jobs);
    TwinsDifferByLostRows(t, jobs, stats, now, now);
    assert k !in Erase(SyncTable(t, jobs, stats, now));
  }

  lemma ListingOfOne(j: Listed)
    ensures WellShaped([j]) && DistinctKeys([j]) && Choice([j], j.key) == Some(j)
    ensures KeysOf([j]) == {j.key} && (j.start != "" ==> PendingKeys([j]) == {})
  {
    var jobs := [j];
    assert jobs[0] == j && jobs[..1] == jobs && jobs[0..] == jobs;
    assert Last(jobs, j.key) == Some(j) && Last([], j.key) == None;
    assert jobs[..0] == [] && jobs[1..] == [];
    assert Head([]) == 0;
  }

  // The shortest such history: one job, seen waiting, then listed as running.
  lemma OneJobIsLost(waiting: Listed, started: Listed, stats: ListStats, now: Time)
    requires waiting.key == started.key && waiting.start == "" && started.start != ""
    ensures var t := Run(map[], [PageView([waiting], stats, now, {})]);
            && Inv(t) && WellShaped([started]) && DistinctKeys([started]) && Lost(t, [started]) != {}
            && Erase(SyncTable(t, [started], stats, now)) != Erase(AsyncTable(t, [started], stats, now))
  {
    var view := [PageView([waiting], stats, now, {})];
    ListingOfOne(waiting);
    ListingOfOne(started);
    assert [] + view == view;
    StartedJobIsLost([], [waiting], [started], stats, now, {}, started.key);
    TwinsAgreeIff(Run(map[], view), [started], stats, now, now);
  }

  // A job listed twice before it has a row: the cycle is rolled back and stores nothing of the
  // listing, while a page view stores it.
  lemma ListedTwiceStoresNothing(a: Listed, b: Listed, stats: ListStats, now: Time)
    requires a.key == b.key && Unfinished(a) && Unfinished(b)
    ensures Run(map[], [CollectorCycle([a, b], stats, now)]) == map[]
    ensures a.key in Run(map[], [PageView([a, b], stats, now, {})])
  {
    var jobs := [a, b];
    assert jobs[0].key == jobs[1].key && jobs[0] in jobs;
    assert !NoFreshDuplicate(map[], jobs);
    RunOfOne(CollectorCycle(jobs, stats, now));
    RunOfOne(PageView(jobs, stats, now, {}));
    UnfinishedIsWellShaped(jobs);
    PassIsExact(map[], jobs, stats, now, a.key);
    FullPassAt(map[], jobs, a.key, stats, now, {});
  }

  lemma UnfinishedIsWellShaped(jobs: seq<Listed>)
    requires forall j <- jobs :: Unfinished(j)
    ensures WellShaped(jobs)
  {
    assert Head(jobs) == |jobs|;
  }

  lemma RunOfOne(e: Event)
    ensures Run(map[], [e]) == After(map[], e)
  {
    assert [e][..0] == [];
    assert Run(map[], []) == map[];
  }
}
