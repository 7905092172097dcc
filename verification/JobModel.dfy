// The vocabulary of one node's job table: listed jobs, stored rows and what one
// listed job does to the row that carries its key.
module JobModel {
  import opened Options

  // The columns of the table's unique constraint.
  datatype Key = Key(project: string, spider: string, job: string)

  // Timestamps are kept as the canonical text 'YYYY-MM-DD HH:MM:SS' that scrapyd prints.
  type Time = string

  // One record of scrapyd's /jobs page; "" stands for a missing cell.
  datatype Listed = Listed(key: Key, pid: Option<int>, start: string, runtime: string,
                           finish: string, hrefLog: string, hrefItems: string)

  datatype Status = Pending | Running | Finished

  datatype Row = Row(key: Key, status: Status, deleted: bool, createTime: Time, updateTime: Time,
                     pages: Option<int>, items: Option<int>, pid: Option<int>, start: Option<Time>,
                     runtime: Option<string>, finish: Option<Time>,
                     hrefLog: Option<string>, hrefItems: Option<string>)

  // The log parser's last timestamp: absent, parsable, or text that strptime rejects.
  datatype LogTime = NoLogTime | LogTime(at: Time) | BadLogTime

  datatype Stats = Stats(pages: Option<int>, items: Option<int>, runtime: string, latest: LogTime)

  type ListStats = map<Key, Stats>
  type Table = map<Key, Row>

  function ListedStatus(j: Listed): Status {
    if j.start == "" then Pending else if j.finish == "" then Running else Finished
  }

  // A soft-deleted finished row is left alone when the same execution is listed again.
  predicate Skips(r: Row, j: Listed) {
    r.deleted && r.status.Finished? && r.start == Some(j.start)
  }

  function Revived(r: Row): Row {
    if r.deleted then r.(deleted := false, pages := None, items := None) else r
  }

  function Blank(k: Key, now: Time): Row {
    Row(k, Pending, false, now, now, None, None, None, None, None, None, None, None)
  }

  function WithListing(r: Row, j: Listed): Row {
    r.(key := j.key, pid := j.pid, start := OrNone(j.start), runtime := OrNone(j.runtime),
       finish := OrNone(j.finish), hrefLog := OrNone(j.hrefLog), hrefItems := OrNone(j.hrefItems),
       status := ListedStatus(j))
  }

  function WithCounts(r: Row, j: Listed, stats: ListStats): Row {
    if j.start == "" then r.(pages := None, items := None)
    else if j.key in stats then r.(pages := stats[j.key].pages, items := stats[j.key].items)
    else r
  }

  // The row after one listed job has been written over it.
  function Upserted(prior: Option<Row>, j: Listed, stats: ListStats, now: Time): Row {
    var base := if prior.None? then Blank(j.key, now) else Revived(prior.value);
    if prior.Some? && Skips(prior.value, j) then prior.value
    else WithCounts(WithListing(base, j), j, stats).(updateTime := now)
  }

  // A running row that scrapyd no longer lists.
  predicate Stale(r: Row, listed: set<Key>) {
    !r.deleted && r.status.Running? && r.key !in listed
  }

  // ... becomes finished, with whatever the log parser knows; the assignments made
  // before an unparsable timestamp raises are kept.
  function Finalized(r: Row, stats: ListStats): Row {
    var r1 := r.(status := Finished, pid := None);
    var r2 := if r.key !in stats then r1
              else r1.(pages := stats[r.key].pages, items := stats[r.key].items,
                       runtime := if stats[r.key].runtime != "" then Some(stats[r.key].runtime) else r.runtime,
                       finish := if stats[r.key].latest.LogTime? then Some(stats[r.key].latest.at) else r.finish);
    if r2.finish.None? then r2.(finish := Some(r2.updateTime)) else r2
  }

  // What every reachable row satisfies.
  predicate RowOk(k: Key, r: Row) {
    && r.key == k
    && (r.status.Pending? <==> r.start.None?)
    && (r.status.Running? ==> r.finish.None?)
    && (r.status.Finished? ==> r.finish.Some?)
    && r.start != Some("")
    && (r.start.None? ==> r.pages.None? && r.items.None?)
  }

  ghost predicate Inv(t: Table) {
    forall k :: k in t ==> RowOk(k, t[k])
  }

  function KeysOf(jobs: seq<Listed>): set<Key> {
    set j <- jobs :: j.key
  }

  // Keys some record of the listing shows without a start time.
  function PendingKeys(jobs: seq<Listed>): set<Key> {
    set j <- jobs | j.start == "" :: j.key
  }

  predicate DistinctKeys(jobs: seq<Listed>) {
    forall i, j :: 0 <= i < j < |jobs| ==> jobs[i].key != jobs[j].key
  }
}
