// Removing old timer-task results: all but the newest, then everything past its age.
module TaskRetention {
  import opened Sequences

  datatype TaskResult = TaskResult(taskId: int, executeTime: int, passCount: nat, failCount: nat)

  const SECONDS_PER_DAY := 86400

  type Results = map<nat, TaskResult>

  // Counts of 0 and 0 mark an execution that is still running, or never finished.
  predicate Unfinished(r: TaskResult) {
    r.passCount == 0 && r.failCount == 0
  }

  function Finished(rows: Results): set<nat> {
    set id <- rows | !Unfinished(rows[id])
  }

  predicate NewestFirst(rows: Results, order: seq<nat>) {
    && (forall i :: 0 <= i < |order| ==> order[i] in rows)
    && forall i, j :: 0 <= i < j < |order| ==> rows[order[i]].executeTime >= rows[order[j]].executeTime
  }

  function Ids(order: seq<nat>): set<nat> {
    set id <- order
  }

  method Newest(rows: Results, pool: set<nat>) returns (best: nat)
    requires pool != {} && pool <= rows.Keys
    ensures best in pool && forall id <- pool :: rows[id].executeTime <= rows[best].executeTime
  {
    best :| best in pool;
    var rest := pool - {best};
    while rest != {}
      invariant rest <= pool && best in pool - rest
      invariant forall id <- pool - rest :: rows[id].executeTime <= rows[best].executeTime
      decreases rest
    {
      var id :| id in rest;
      if rows[id].executeTime > rows[best].executeTime {
        best := id;
      }
      rest := rest - {id};
    }
  }

  // order_by(execute_time.desc()); results of the same time come out in an arbitrary order.
  method OrderByTimeDesc(rows: Results, pool: set<nat>) returns (order: seq<nat>)
    requires pool <= rows.Keys
    ensures NewestFirst(rows, order) && NoRepeats(order) && Ids(order) == pool
  {
    order := [];
    var rest := pool;
    while rest != {}
      invariant rest <= pool && Ids(order) == pool - rest
      invariant NewestFirst(rows, order) && NoRepeats(order)
      invariant forall i, id :: 0 <= i < |order| && id in rest ==> rows[order[i]].executeTime >= rows[id].executeTime
      decreases rest
    {
      var id := Newest(rows, rest);
      assert id !in Ids(order);
      IdsSnoc(order, id);
      order := order + [id];
      rest := rest - {id};
    }
  }

  lemma IdsSnoc(order: seq<nat>, id: nat)
    ensures Ids(order + [id]) == Ids(order) + {id}
  {
  }

  lemma {:induction false} DistinctSize(order: seq<nat>)
    requires NoRepeats(order)
    ensures |Ids(order)| == |order|
  {
    if order != [] {
      var front, last := order[..|order| - 1], order[|order| - 1];
      DistinctSize(front);
      IdsSnoc(front, last);
      assert order == front + [last] && last !in Ids(front);
    }
  }

  // Dropping the tail of a listing without repeats keeps exactly its head.
  lemma KeepsHead(order: seq<nat>, limit: nat)
    requires NoRepeats(order) && limit <= |order|
    ensures Ids(order) - Ids(order[limit..]) == Ids(order[..limit])
    ensures |Ids(order[..limit])| == limit
  {
    DistinctSize(order[..limit]);
    assert order == order[..limit] + order[limit..];
    forall id | id in Ids(order[..limit]) ensures id !in Ids(order[limit..]) {
      var i :| 0 <= i < limit && order[..limit][i] == id;
      assert order[i] == id;
    }
  }

  class ResultTable {
    var rows: Results
    var jobRows: map<nat, nat>  // job result id -> the task result it belongs to

    constructor (rows: Results, jobRows: map<nat, nat>)
      ensures this.rows == rows && this.jobRows == jobRows
    {
      this.rows, this.jobRows := rows, jobRows;
    }

    // Deleting a result deletes its job rows with it.
    method DeleteAll(ids: seq<nat>)
      modifies this
      ensures rows == old(rows) - Ids(ids)
      ensures jobRows == Orphaned(old(jobRows), Ids(ids))
    {
      for i := 0 to |ids|
        invariant rows == old(rows) - Ids(ids[..i])
        invariant jobRows == Orphaned(old(jobRows), Ids(ids[..i]))
      {
        Snoc(ids, i);
        IdsSnoc(ids[..i], ids[i]);
        rows := rows - {ids[i]};
        jobRows := map j | j in jobRows && jobRows[j] != ids[i] :: jobRows[j];
      }
      Whole(ids);
    }

    // Only the newest `limit` finished results stay; 0 keeps all.
    method KeepNewest(limit: nat) returns (pushedOut: set<nat>)
      modifies this
      ensures PushedOut(old(rows), limit, pushedOut)
      ensures rows == old(rows) - pushedOut && jobRows == Orphaned(old(jobRows), pushedOut)
    {
      pushedOut := {};
      if limit != 0 {
        var order := OrderByTimeDesc(rows, Finished(rows));
        var outdated := if |order| <= limit then [] else order[limit..];
        OutdatedIsPushedOut(rows, order, limit);
        pushedOut := set id <- outdated;
        DeleteAll(outdated);
      }
    }

    method DropAged(days: nat, now: int)
      modifies this
      ensures rows == old(rows) - Aged(old(rows), days, now)
      ensures jobRows == Orphaned(old(jobRows), Aged(old(rows), days, now))
    {
      if days != 0 {
        var order := OrderByTimeDesc(rows, Aged(rows, days, now));
        DeleteAll(order);
      }
    }

    method DeleteOutdated(limit: nat, days: nat, now: int) returns (pushedOut: set<nat>)
      modifies this
      ensures PushedOut(old(rows), limit, pushedOut)
      ensures rows == Retained(old(rows), pushedOut, days, now)
      ensures jobRows == Orphaned(Orphaned(old(jobRows), pushedOut), Aged(old(rows) - pushedOut, days, now))
    {
      pushedOut := KeepNewest(limit);
      DropAged(days, now);
    }
  }

  // The job rows left when these results are gone.
  function Orphaned(jobRows: map<nat, nat>, ids: set<nat>): map<nat, nat> {
    map j | j in jobRows && jobRows[j] !in ids :: jobRows[j]
  }

  function Aged(rows: Results, days: nat, now: int): set<nat> {
    set id <- rows | days != 0 && rows[id].executeTime <= now - days * SECONDS_PER_DAY && !Unfinished(rows[id])
  }

  function Retained(rows: Results, pushedOut: set<nat>, days: nat, now: int): Results {
    rows - pushedOut - Aged(rows - pushedOut, days, now)
  }

  // What the limit may push out: finished results only, leaving `limit` of them or all, and
  // none that is more recent than one that stays.
  ghost predicate PushedOut(rows: Results, limit: nat, gone: set<nat>) {
    && gone <= Finished(rows)
    && (limit == 0 ==> gone == {})
    && (limit > 0 ==> |Finished(rows) - gone| == if |Finished(rows)| <= limit then |Finished(rows)| else limit)
    && forall id, g :: id in Finished(rows) - gone && g in gone ==> rows[id].executeTime >= rows[g].executeTime
  }

  lemma HeadIsNewer(rows: Results, order: seq<nat>, limit: nat, id: nat, g: nat)
    requires limit < |order| && NewestFirst(rows, order) && id in order[..limit] && g in order[limit..]
    ensures rows[id].executeTime >= rows[g].executeTime
  {
    var i :| 0 <= i < limit && order[..limit][i] == id;
    var j :| 0 <= j < |order| - limit && order[limit..][j] == g;
    assert order[i] == id && order[limit + j] == g;
  }

  lemma TailIsPushedOut(rows: Results, order: seq<nat>, limit: nat, gone: set<nat>)
    requires 0 < limit < |order| && NewestFirst(rows, order) && NoRepeats(order) && Ids(order) == Finished(rows)
    requires gone == Ids(order[limit..])
    ensures PushedOut(rows, limit, gone)
  {
    DistinctSize(order);
    KeepsHead(order, limit);
    assert gone <= Ids(order);
    forall id, g | id in Finished(rows) - gone && g in gone ensures rows[id].executeTime >= rows[g].executeTime {
      assert id in Ids(order[..limit]);
      HeadIsNewer(rows, order, limit, id, g);
    }
  }

  lemma OutdatedIsPushedOut(rows: Results, order: seq<nat>, limit: nat)
    requires limit > 0 && NewestFirst(rows, order) && NoRepeats(order) && Ids(order) == Finished(rows)
    ensures PushedOut(rows, limit, if |order| <= limit then {} else Ids(order[limit..]))
  {
    if |order| > limit {
      TailIsPushedOut(rows, order, limit, Ids(order[limit..]));
    } else {
      DistinctSize(order);
      assert Finished(rows) - {} == Finished(rows);
    }
  }

  // A clean-up never removes a result whose counts are still 0 and 0, keeps every other one,
  // all-failed ones too, that is young enough and not pushed out, and leaves none that is too
  // old.
  lemma CleanUpIsSafe(rows: Results, limit: nat, gone: set<nat>, days: nat, now: int, id: nat)
    requires PushedOut(rows, limit, gone) && id in rows
    ensures var kept := Retained(rows, gone, days, now);
            && (rows[id].passCount == 0 && rows[id].failCount == 0 ==> id in kept)
            && (rows[id].passCount > 0 || rows[id].failCount > 0 ==>
                  (id in kept <==> id !in gone && (days == 0 || rows[id].executeTime > now - days * 86400)))
            && (id in kept ==> kept[id] == rows[id])
  {
  }

  // The results with counts other than 0 and 0.
  function Counted(rows: Results): set<nat> {
    set id <- rows | rows[id].passCount > 0 || rows[id].failCount > 0
  }

  lemma CountedAre(rows: Results)
    ensures Counted(rows) == Finished(rows)
  {
  }

  lemma LeftAre(rows: Results, gone: set<nat>, days: nat, now: int)
    ensures Counted(Retained(rows, gone, days, now)) <= Finished(rows) - gone
    ensures days == 0 ==> Counted(Retained(rows, gone, days, now)) == Finished(rows) - gone
    ensures forall g :: g in Finished(rows) - Counted(Retained(rows, gone, days, now)) ==>
              g in gone || (days > 0 && rows[g].executeTime <= now - days * 86400)
  {
  }

  lemma SmallerSet<T>(a: set<T>, b: set<T>)
    requires a <= b
    ensures |a| <= |b|
  {
    assert b == a + (b - a);
  }

  // After a clean-up with a limit no more results with counts are left than the limit allows;
  // without an age that many are, or all; and one that is gone though it was young enough is
  // no newer than any that is left.
  lemma LimitIsMet(rows: Results, limit: nat, gone: set<nat>, days: nat, now: int)
    requires PushedOut(rows, limit, gone)
    ensures var left, n := Counted(Retained(rows, gone, days, now)), |Counted(rows)|;
            && (limit > 0 ==> |left| <= limit)
            && (days == 0 ==> |left| == if limit == 0 || n <= limit then n else limit)
            && forall id, g :: id in left && g in Counted(rows) - left &&
                               (days == 0 || rows[g].executeTime > now - days * 86400) ==>
                 rows[id].executeTime >= rows[g].executeTime
  {
    CountedAre(rows);
    LeftAre(rows, gone, days, now);
    SmallerSet(Counted(Retained(rows, gone, days, now)), Finished(rows) - gone);
    assert gone == {} ==> Finished(rows) - gone == Finished(rows);
  }

  // Every job row of a result that stays is kept, and no job row outlives its result.
  lemma JobRowsFollow(rows: Results, jobRows: map<nat, nat>, gone: set<nat>, days: nat, now: int, j: nat)
    requires j in jobRows && jobRows[j] in rows
    ensures j in Orphaned(Orphaned(jobRows, gone), Aged(rows - gone, days, now)) <==>
            jobRows[j] in Retained(rows, gone, days, now)
  {
  }
}
