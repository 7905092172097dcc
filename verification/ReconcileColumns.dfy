// What the columns of a stored row hold after a page view and after a collector cycle, in
// terms of the listing, the log statistics and the row before.
module ReconcileColumns {
  import opened JobModel
  import opened ListingDedup
  import opened OrmSession
  import opened Options
  import opened Reconcile
  import opened ReconcileTheorems

  // A blank cell of the page is stored as null.
  predicate Holds(column: Option<string>, cell: string) {
    column == if cell == "" then None else Some(cell)
  }

  // The row shows this listed job.
  predicate ShowsJob(r: Row, c: Listed) {
    && r.key == c.key && r.pid == c.pid && !r.deleted
    && Holds(r.start, c.start) && Holds(r.runtime, c.runtime) && Holds(r.finish, c.finish)
    && Holds(r.hrefLog, c.hrefLog) && Holds(r.hrefItems, c.hrefItems)
    && r.status == (if c.start == "" then Pending else if c.finish == "" then Running else Finished)
  }

  // Its counts: none while the job waits, those of the log statistics where there are any, and
  // otherwise these.
  predicate CountsAre(r: Row, c: Listed, stats: ListStats, pages: Option<int>, items: Option<int>) {
    if c.start == "" then r.pages == None && r.items == None
    else if c.key in stats then r.pages == stats[c.key].pages && r.items == stats[c.key].items
    else r.pages == pages && r.items == items
  }

  // The execution was soft-deleted after it had been recorded as finished.
  predicate Ignored(prior: Option<Row>, c: Listed) {
    prior.Some? && prior.value.deleted && prior.value.status == Finished && prior.value.start == Some(c.start)
  }

  function PagesOf(prior: Option<Row>): Option<int> {
    if prior.Some? && !prior.value.deleted then prior.value.pages else None
  }

  function ItemsOf(prior: Option<Row>): Option<int> {
    if prior.Some? && !prior.value.deleted then prior.value.items else None
  }

  lemma UpsertedColumns(prior: Option<Row>, c: Listed, stats: ListStats, now: Time)
    ensures var r := Upserted(prior, c, stats, now);
            if Ignored(prior, c) then r == prior.value
            else
              && ShowsJob(r, c) && CountsAre(r, c, stats, PagesOf(prior), ItemsOf(prior))
              && r.updateTime == now && r.createTime == (if prior.Some? then prior.value.createTime else now)
  {
  }

  // After a page view the row of a listed key shows the record chosen for it, with the counts
  // of the statistics or, where there are none, the ones it had; only a soft-deleted finished
  // execution that is listed again keeps its row as it was.
  lemma ListedColumns(t: Table, jobs: seq<Listed>, stats: ListStats, now: Time, k: Key, c: Listed)
    requires Inv(t) && Choice(jobs, k) == Some(c)
    ensures var after := AsyncTable(t, jobs, stats, now);
            var prior := At(t, k);
            k in after &&
            if Ignored(prior, c) then after[k] == t[k]
            else
              && ShowsJob(after[k], c) && CountsAre(after[k], c, stats, PagesOf(prior), ItemsOf(prior))
              && after[k].updateTime == now
              && after[k].createTime == (if k in t then t[k].createTime else now)
  {
    AsyncAt(t, jobs, k, stats, now);
    ChoiceIsListed(jobs, k);
    ChosenIsKept(At(t, k), k, jobs, stats, now);
    UpsertedColumns(At(t, k), c, stats, now);
  }

  // A running row that scrapyd has dropped is finished: counts and runtime are those of the
  // statistics where there are any, the finish time is the log's last one or else that of the
  // row's last update, and nothing else changes.
  predicate Ended(r: Row, p: Row, stats: ListStats) {
    && r.status == Finished && r.pid == None
    && (if p.key in stats then r.pages == stats[p.key].pages && r.items == stats[p.key].items
        else r.pages == p.pages && r.items == p.items)
    && r.runtime == (if p.key in stats && stats[p.key].runtime != "" then Some(stats[p.key].runtime) else p.runtime)
    && r.finish == (if p.key in stats && stats[p.key].latest.LogTime? then Some(stats[p.key].latest.at)
                    else Some(p.updateTime))
    && r.key == p.key && r.start == p.start && r.deleted == p.deleted
    && r.hrefLog == p.hrefLog && r.hrefItems == p.hrefItems
    && r.createTime == p.createTime && r.updateTime == p.updateTime
  }

  lemma FinalizedColumns(p: Row, stats: ListStats)
    requires p.finish.None?
    ensures Ended(Finalized(p, stats), p, stats)
  {
  }

  // What becomes of a row whose key is not listed.
  predicate Unlisted(r: Option<Row>, p: Row, stats: ListStats) {
    if p.start.None? then r == None
    else if p.status == Running && !p.deleted then r.Some? && Ended(r.value, p, stats)
    else r == Some(p)
  }

  lemma UnlistedColumns(t: Table, jobs: seq<Listed>, stats: ListStats, now: Time, k: Key)
    requires Inv(t) && k in t && forall j <- jobs :: j.key != k
    ensures Unlisted(At(AsyncTable(t, jobs, stats, now), k), t[k], stats)
  {
    AsyncAt(t, jobs, k, stats, now);
    NotChosen(jobs, k);
    if t[k].status == Running {
      FinalizedColumns(t[k], stats);
    }
  }

  lemma NotChosen(jobs: seq<Listed>, k: Key)
    requires forall j <- jobs :: j.key != k
    ensures Choice(jobs, k) == None && k !in KeysOf(jobs) && k !in PendingKeys(jobs)
  {
    ChoiceIsListed(jobs, k);
  }

  // ---- the backfill of the displayed rows ----

  // A displayed row that has started and has no page count takes both counts from the
  // statistics where there are any; nothing else changes.
  lemma BackfilledColumns(t: Table, page: set<Key>, stats: ListStats, k: Key)
    requires Inv(t)
    ensures var after := Backfilled(t, page, stats);
            && (k in after <==> k in t)
            && (k in t ==>
                  if k in page && t[k].pages == None && t[k].start != None && k in stats
                  then after[k] == t[k].(pages := stats[k].pages, items := stats[k].items)
                  else after[k] == t[k])
  {
  }

  // Through any history: the row a page view leaves for a listed key.
  lemma EveryHistoryShowsListing(events: seq<Event>, jobs: seq<Listed>, stats: ListStats, now: Time, page: set<Key>,
                                 k: Key, c: Listed)
    requires Choice(jobs, k) == Some(c) && !Ignored(At(Run(map[], events), k), c)
    ensures var prior := At(Run(map[], events), k);
            var after := Run(map[], events + [PageView(jobs, stats, now, page)]);
            && k in after && ShowsJob(after[k], c)
            && CountsAre(after[k], c, stats, PagesOf(prior), ItemsOf(prior))
  {
    var t, all := Run(map[], events), events + [PageView(jobs, stats, now, page)];
    RunKeepsInv(map[], events);
    assert all[..|all| - 1] == events;
    ListedColumns(t, jobs, stats, now, k, c);
    ChoiceIsListed(jobs, k);
    BackfillKeepsCounts(AsyncTable(t, jobs, stats, now), page, stats, k, c, PagesOf(At(t, k)), ItemsOf(At(t, k)));
  }

  lemma BackfillKeepsCounts(t: Table, page: set<Key>, stats: ListStats, k: Key, c: Listed, pages: Option<int>,
                            items: Option<int>)
    requires k in t && c.key == k && ShowsJob(t[k], c) && CountsAre(t[k], c, stats, pages, items)
    ensures var after := Backfilled(t, page, stats);
            k in after && ShowsJob(after[k], c) && CountsAre(after[k], c, stats, pages, items)
  {
  }

  // ---- the collector's cycle, repeated keys included ----

  // Every listed job of this key is the soft-deleted finished execution.
  predicate AllIgnored(r: Row, jobs: seq<Listed>, k: Key) {
    forall j <- jobs :: j.key == k ==> Ignored(Some(r), j)
  }

  predicate AllStarted(jobs: seq<Listed>, k: Key) {
    forall j <- jobs :: j.key == k ==> j.start != ""
  }

  // A row under all listed jobs of its key: it shows the last one.
  predicate FoldedTo(p: Row, r: Row, jobs: seq<Listed>, k: Key, stats: ListStats) {
    if AllIgnored(r, jobs, k) then p == r
    else
      && Last(jobs, k).Some? && ShowsJob(p, Last(jobs, k).value)
      && CountsAre(p, Last(jobs, k).value, stats, if AllStarted(jobs, k) then PagesOf(Some(r)) else None,
                   if AllStarted(jobs, k) then ItemsOf(Some(r)) else None)
  }

  lemma AllSnoc(r: Row, front: seq<Listed>, j: Listed, k: Key)
    ensures AllIgnored(r, front + [j], k) <==> AllIgnored(r, front, k) && (j.key == k ==> Ignored(Some(r), j))
    ensures AllStarted(front + [j], k) <==> AllStarted(front, k) && (j.key == k ==> j.start != "")
  {
    assert forall x :: x in front + [j] <==> x in front || x == j;
  }

  lemma LastOfSnoc(front: seq<Listed>, j: Listed, k: Key)
    ensures Last(front + [j], k) == if j.key == k then Some(j) else Last(front, k)
  {
    assert (front + [j])[..|front|] == front;
  }

  lemma IgnoredIsStarted(r: Row, jobs: seq<Listed>, k: Key)
    requires RowOk(k, r) && AllIgnored(r, jobs, k)
    ensures AllStarted(jobs, k)
  {
    forall j <- jobs | j.key == k ensures j.start != "" {
      assert Ignored(Some(r), j);
    }
  }

  // One more job of the key, written over what the ones before have left.
  lemma FoldedMore(p: Row, r: Row, front: seq<Listed>, j: Listed, k: Key, stats: ListStats, now: Time)
    requires RowOk(k, r) && j.key == k && FoldedTo(p, r, front, k, stats)
    ensures FoldedTo(Upserted(Some(p), j, stats, now), r, front + [j], k, stats)
  {
    AllSnoc(r, front, j, k);
    LastOfSnoc(front, j, k);
    UpsertedColumns(Some(p), j, stats, now);
    if AllIgnored(r, front, k) {
      IgnoredIsStarted(r, front, k);
    }
  }

  lemma FoldedSame(p: Row, r: Row, front: seq<Listed>, j: Listed, k: Key, stats: ListStats)
    requires j.key != k && FoldedTo(p, r, front, k, stats)
    ensures FoldedTo(p, r, front + [j], k, stats)
  {
    AllSnoc(r, front, j, k);
    LastOfSnoc(front, j, k);
  }

  lemma {:induction false} FoldColumns(r: Row, jobs: seq<Listed>, k: Key, stats: ListStats, now: Time)
    requires RowOk(k, r)
    ensures FoldedTo(Fold(r, jobs, k, stats, now), r, jobs, k, stats)
  {
    if jobs != [] {
      var front, j := jobs[..|jobs| - 1], jobs[|jobs| - 1];
      FoldColumns(r, front, k, stats, now);
      assert jobs == front + [j];
      var p := Fold(r, front, k, stats, now);
      if j.key == k {
        FoldedMore(p, r, front, j, k, stats, now);
      } else {
        FoldedSame(p, r, front, j, k, stats);
      }
    }
  }

  // Rows whose committed start is null survive a cycle only if some listed job of their key
  // still waits.
  predicate StartedMeanwhile(t: Table, jobs: seq<Listed>, k: Key) {
    k in t && t[k].start == None && forall j <- jobs :: j.key == k ==> j.start != ""
  }

  lemma StartedMeanwhileIs(t: Table, jobs: seq<Listed>, k: Key)
    ensures k in Vanished(t, PendingKeys(jobs)) <==> StartedMeanwhile(t, jobs, k)
  {
    assert k in PendingKeys(jobs) <==> exists j <- jobs :: j.key == k && j.start == "";
  }

  // After a cycle the row of a listed key shows the last record listed for it, in any listing.
  lemma SyncListedColumns(t: Table, jobs: seq<Listed>, stats: ListStats, now: Time, k: Key)
    requires Inv(t) && Last(jobs, k).Some?
    ensures var after, c := SyncTable(t, jobs, stats, now), Last(jobs, k).value;
            if StartedMeanwhile(t, jobs, k) then k !in after
            else
              && k in after
              && if k in t then FoldedTo(after[k], t[k], jobs, k, stats)
                 else ShowsJob(after[k], c) && CountsAre(after[k], c, stats, None, None)
  {
    OverlayIsFold(t, jobs, stats, now);
    NewRowsByKey(t, jobs, stats, now);
    StartedMeanwhileIs(t, jobs, k);
    if k in t {
      FoldColumns(t[k], jobs, k, stats, now);
    } else {
      UpsertedColumns(None, Last(jobs, k).value, stats, now);
    }
  }

  lemma SyncUnlistedColumns(t: Table, jobs: seq<Listed>, stats: ListStats, now: Time, k: Key)
    requires Inv(t) && k in t && forall j <- jobs :: j.key != k
    ensures Unlisted(At(SyncTable(t, jobs, stats, now), k), t[k], stats)
  {
    OverlayIsFold(t, jobs, stats, now);
    NewRowsByKey(t, jobs, stats, now);
    StartedMeanwhileIs(t, jobs, k);
    NotChosen(jobs, k);
    FoldOfLast(t[k], jobs, k, stats, now);
    if t[k].status == Running {
      FinalizedColumns(t[k], stats);
    }
  }
}
